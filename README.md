# veiZi vote escrow — a Dafny model

veiZi is a vote-escrow contract for the iZi token:
- A holder locks iZi until a week-aligned unlock time and receives a position NFT.
- The position's voting weight (its "veiZi") decays linearly to zero at the unlock time: `slope = amount / MAXTIME` (floor division), weight `slope * (end - t)` while `end > t`.
- A global checkpoint ledger (`pointHistory`, `epoch`, `slopeChanges`) tracks the total weight. It is walked forward week by week on every call.
- A staking pool pays block rewards to staked positions through a Q128 "reward per share" accumulator.

The contract's own source is not available. The repository pins its behaviour down through its tests, and this model is reconstructed from them. It has six modules:

- `Decay` (`decay.dfy`): week flooring, slope and weight, and the arithmetic facts about them.
- `Ledger` (`ledger.dfy`): locks, checkpoints and the slope-change schedule. It holds:
  - the reference oracle for the latest point, as in `getLastPointAndSlopeChanges`;
  - the replay rule;
  - the recording of one lock change;
  - the proofs that the replay and every lock change keep the latest point and the schedule equal to the oracle;
  - epoch counting.
- `Reward` (`reward.dfy`): the accumulator `touch`, the per-touch increase, the pending reward, and emission bounds.
- `Accounts` (`accounts.dfy`): token transfers, NFT counts per account, and the staked total.
- `Staking` (`staking.dfy`): the staking registry invariant and its preservation by mint, move, stake, settle and unstake.
- `Escrow` (`escrow.dfy`): the contract as a class `VeiZi` whose methods update its fields in place.
  - Operations: `createLock`, `increaseAmount`, `increaseUnlockTime`, `merge`, `withdraw`, `burn`, `checkPoint`, `stake`, `collect`, `unStake`, `stakingInfo`, and the owner setters `modifyEndBlock`, `modifyRewardPerBlock`, `modifyStartBlock` and `modifyProvider`.
  - Every method keeps the class invariant `Valid()`. It consists of the ledger invariant, the NFT ids in range, and the registry invariant.
  - Every method's `modifies` clause names the fields it may change, so every other field is unchanged. Its postconditions give the new value of each field it does change.
  - A rejected call returns `Err` and changes nothing.

Block time (`now`), the block number (`block`) and the caller are explicit parameters. Token and NFT bookkeeping is reduced to a balance map and an owner map. Addresses are natural numbers, and 0 is the zero address.

Where the tests and the repository's prose description disagree, the model follows the tests:
- `merge` keeps the source lock's end and only zeroes its amount (test/testMergeConditions.js:137-139).
- The staked total `stakeiZiAmount` is the sum of the staked positions' locked amounts as recorded at stake time, not of their decaying weights (test/testStake.js:199, 222, 245, 271, 291).
- `increaseAmount` pays no reward (test/testIncreaseAmountConditions.js:171-183, 209-236). The tests do not read the staking record or the staked total after it. The model leaves both as they are, as the repository's prose description says.

**Replay rule.** The model takes the rule that the epoch numbers asserted in test/testCheckPoint.js imply. From the latest point, each week boundary `w` after it is visited in turn:
- if `w < now`, the point decays to `w` and takes the change scheduled at `w`; it is kept as an extra checkpoint exactly when that change is non-zero;
- if `w == now`, the change is applied without a checkpoint of its own;
- the final point is taken at `now`.

Counting the test's steps this way, the closing `checkPoint()` at week 32 lands at epoch 19 (`Ledger.CheckPointWalkThroughEpoch`).

## Model

| member | source | states |
|---|---|---|
| Decay.FloorWeek | test/testIncreaseAmountConditions.js:128-148 | the stored end is the week boundary at or below the requested unlock time (21.2 weeks is stored as week 21) |
| Decay.Slope | test/testCheckPoint.js:20-24 | the slope is the floor of amount / MAXTIME |
| Decay.WeightAtMostAmount | test/testCheckPoint.js:44-48 | a lock of at most MAXTIME weighs at most its amount |
| Decay.WeightDecaysLinearly | test/testCheckPoint.js:148-150 | d seconds later, before the end, a lock weighs exactly slope × d less |
| Decay.WeightNonIncreasing | test/testCheckPoint.js:148-150 | a lock's weight never grows with time |
| Ledger.Replay | test/testCheckPoint.js:315-347 | the replay ends at `now`; its extra checkpoints lie strictly between the last point and `now`, on week boundaries with a non-zero scheduled change, in increasing time order |
| Ledger.CheckPoint | test/testCheckPoint.js:421-437 | the history only grows: the old history is a prefix and the new last point is taken at `now` |
| Ledger.StepMatchesOracle | test/testCheckPoint.js:148-150 | when no lock ends strictly inside `[t, u]`, the oracle's bias drops by slope × (u − t) and its slope drops by the slopes of the locks ending at `u` |
| Ledger.SlopeChangeOffBoundary | test/testIncreaseAmount.js:278-281 | the oracle schedules nothing at a time that is not a week boundary |
| Ledger.ReplayMatchesOracle | test/testIncreaseAmount.js:85-102 | replaying a point that agrees with the oracle gives the oracle's point at every extra checkpoint and at `now`, and the schedule stays consistent |
| Ledger.ReplayVisitsChangedBoundaries | test/testCheckPoint.js:315-347 | a time is an extra checkpoint of the replay if and only if it is a week boundary strictly between the last point and `now` with a non-zero scheduled change |
| Ledger.CheckPointKeepsLedger | test/testCheckPoint.js:421-437 | `checkPoint` keeps the ledger invariant and its last point is the oracle's point at `now` |
| Ledger.TotalsAfterUpdate | test/testIncreaseAmount.js:259-268 | replacing one lock changes total bias, total slope and each scheduled change by exactly that lock's old and new contributions |
| Ledger.RecordMatchesOracle | test/testIncreaseAmount.js:697-729 | taking a lock's old contribution out of the latest point and the schedule and putting its new one in keeps both equal to the oracle for the new locks |
| Ledger.RecordKeepsLedger | test/testIncreaseAmount.js:697-729 | recording one lock change keeps the whole ledger invariant |
| Ledger.AppendKeepsLedger | test/testCheckPoint.js:125-136 | a freshly minted id reads as the empty lock and changes nothing in the ledger |
| Ledger.UpdateLock | test/testIncreaseAmount.js:259-276 | a lock change replaces exactly that lock, grows the history, and leaves its last point at the call time |
| Ledger.UpdateLockKeepsLedger | test/testIncreaseAmount.js:270-290 | after any lock change at `now`, `pointHistory[epoch]` is the oracle's point for the new locks at `now`, the schedule matches the oracle at every later time, and it is 0 off week boundaries |
| Ledger.ReplayLength | test/testCheckPoint.js:315-347 | a call adds one epoch per crossed week boundary with a non-zero change, plus one |
| Ledger.ChangedBetweenSplit | test/testCheckPoint.js:390-420 | the count of changed boundaries splits at any boundary in between |
| Ledger.ChangedBetweenNone | test/testCheckPoint.js:141-155 | with no changed boundary in between, nothing is counted |
| Ledger.CheckPointWalkThroughEpoch | test/testCheckPoint.js:379-437 | from lock 14's point (epoch 15, week 11) with changes at weeks 20, 25 and 30, a checkpoint at week 32 lands at epoch 19 |
| Ledger.CreateLockOneEpoch | test/testCheckPoint.js:141-155 | a createLock that crosses no lock end appends exactly one epoch: previous bias − previous slope × elapsed + new weight, and previous slope, minus the slopes ending at the call time, plus the new slope |
| Reward.AccDelta | test/testStake.js:226-227 | the accumulator grows by floor(rewardPerBlock × blocks × 2^128 / stakeiZiAmount), and by nothing while nothing is staked |
| Reward.Pending | test/testStake.js:320 | the reward owed is floor(lastVeiZi × (acc − lastTouchAcc) / 2^128) |
| Reward.Touch | test/testStake.js:226-229 | a touch credits the blocks since the last touch, capped at endBlock, and moves only `accRewardPerShare` and `lastTouchBlock` |
| Reward.TouchMonotone | test/testStake.js:226-229 | a touch never moves the touch point backward or past the block or the end block, and never lowers the accumulator |
| Reward.TouchIdempotent | test/testStake.js:226-229 | touching twice in one block is touching once |
| Reward.NoAccrualAfterEnd | test/testOwnerInterface.js:255-262 | once the touch point has reached endBlock, a touch changes nothing |
| Reward.PendingWithinEmission | test/testStake.js:292-295 | a position whose weight is at most the staked total is owed at most the emission of the blocks the accumulator moved over |
| Reward.TotalPendingWithinEmission | test/testStake.js:292-295 | the rewards owed to several positions over one step add up to at most that step's emission |
| Reward.PendingSumBelowPooled | test/testStake.js:292-295 | flooring each position's reward separately never pays more than flooring the pooled weight once |
| Accounts.Transfer | test/testIncreaseAmountConditions.js:200-207 | the payer loses exactly the value, the payee gains it, and every other balance is unchanged |
| Accounts.NftBalanceAfterMove | test/testBurn.js:143-153 | moving one NFT takes one from its old owner, gives one to the new owner, and leaves every other count unchanged |
| Accounts.NftBalanceUnaffected | test/testBurn.js:140-141 | ids outside `1..n` do not count towards NFT balances |
| Accounts.NftBalanceAfterMint | test/testBurn.js:140-141 | minting the next id gives its owner exactly one more NFT |
| Accounts.StakedAmountAfterUpdate | test/testStake.js:284-291 | rewriting one staking record changes the staked total by the difference of its staked amounts |
| Accounts.StakedAmountUnaffected | test/testStake.js:304-314 | records beyond `1..n` do not count towards the staked total |
| Staking.NotHeldNotStaked | test/testMergeConditions.js:203-232 | a position not held by the contract has no staker and no live staking record |
| Staking.MintKeepsRegistry | test/testStakeConditions.js:201-207 | minting a position to an account keeps the registry invariant |
| Staking.MoveKeepsRegistry | test/testBurn.js:143-153 | moving an unstaked position between accounts keeps the registry invariant |
| Staking.SettleKeepsRegistry | test/testStake.js:240-258 | settling a staked position at a newer accumulator keeps the registry invariant |
| Staking.StakeKeepsRegistry | test/testStake.js:194-209 | staking with the next staking id, custody moved to the contract, and slot and back pointer set keeps the invariant, and adds the amount to the staked total |
| Staking.UnstakeKeepsRegistry | test/testStake.js:289-302 | closing the record, clearing the slots and returning the position keeps the invariant, and subtracts exactly the record's amount from the staked total |
| Escrow.CreateLockCheck | test/testCheckPoint.js:118-136 | a createLock is accepted if and only if the amount is positive, the floored end lies in `(now, now + MAXTIME]`, and the caller can pay |
| Escrow.MergeCheck | test/testMergeConditions.js:146-193 | a merge is accepted if and only if the ids differ and exist, the caller owns both, and the target does not end before the source |
| Escrow.ExtendCheck | test/testIncreaseAmount.js:642-674 | an extension is accepted if and only if the caller owns or stakes the position, it holds tokens, and the new end is later than the old and lies in `(now, now + MAXTIME]` |
| Escrow.StakeCheck | test/testStakeConditions.js:213-265 | a stake is accepted if and only if the caller owns a non-empty, unexpired position and stakes nothing yet |
| Escrow.VeiZi.constructor | test/testStake.js:140-149 | deployment: no locks, the sentinel point at epoch 0, an empty pool, and the accumulator starting at startBlock |
| Escrow.VeiZi.CheckPointTo | test/testCheckPoint.js:421-437 | the replay loop appends exactly the replay's points |
| Escrow.VeiZi.ChangeLock | test/testIncreaseAmount.js:259-276 | one lock change: the ledger becomes `UpdateLock` of the old ledger, and the last point is the oracle's point at `now` |
| Escrow.VeiZi.CheckPointNow | test/testCheckPoint.js:421-437 | public `checkPoint`: the history is replayed to `now` and the last point is the oracle's |
| Escrow.VeiZi.Settle | test/testStake.js:240-258 | succeeds exactly when the provider can pay (`CanPayReward`); touch; pay floor(lastVeiZi × Δacc / 2^128) from the provider; resync lastVeiZi, the touch block and the accumulator snapshot |
| Escrow.VeiZi.CreateLock | test/testCheckPoint.js:118-136 | accepted exactly under its guards; the next id is minted to the caller (NFT count + 1); the ledger records the floored lock; the caller pays the amount |
| Escrow.VeiZi.IncreaseAmount | test/testIncreaseAmountConditions.js:135-236 | anyone may add to a running lock; only that lock's amount grows, its end stays; the caller pays; staking state and rewards are untouched |
| Escrow.VeiZi.IncreaseUnlockTime | test/testIncreaseAmount.js:259-268 | accepted if and only if the caller owns or stakes a non-empty lock, the floored end is later and lies in `(now, now + MAXTIME]`, and for a staked position the provider can pay its reward; so an expired unwithdrawn lock is revived; the later end is recorded and the last point is the oracle's |
| Escrow.VeiZi.ExtendLock | test/testIncreaseAmount.js:642-674 | an unstaked extension always succeeds (also for a lock ending exactly now); a staked one succeeds exactly when the provider can pay; the new ledger and settlement are as `Extended` states |
| Escrow.VeiZi.SettleAndExtend | test/single/testRewardAfterIncreaseUnlockTime.js:263-278 | succeeds exactly when the provider can pay; a staked position is paid from the pre-extension lastVeiZi, then weighs slope × (newEnd − now) |
| Escrow.VeiZi.Merge | test/testMergeConditions.js:127-161 | accepted exactly under its guards, and never for a staked position; the source keeps its end with amount 0; the target gets the sum and keeps its end; a rejected merge changes nothing |
| Escrow.VeiZi.Withdraw | test/testWithdrawCondition.js:135-256 | only the owner, only once `end <= now`, and never while staked; the lock then reads (0, 0) and the amount goes back to the caller |
| Escrow.VeiZi.Burn | test/testBurn.js:135-196 | only the owner of an emptied lock may burn it; the NFT count drops by one |
| Escrow.VeiZi.Stake | test/testStakeConditions.js:213-265 | accepted exactly under `StakeCheck`; on success the registry changes as `EnterPool` states; nothing else changes |
| Escrow.VeiZi.EnterPool | test/testStake.js:194-209 | touch, then the next staking id, lastVeiZi = slope × (end − now), the current accumulator, custody to the contract, and the amount added to the staked total |
| Escrow.VeiZi.Collect | test/testStake.js:235-258 | succeeds if and only if the caller stakes a position whose reward the provider can pay; with nothing staked it fails and pays nothing; otherwise it pays by the pending formula and resyncs the record, and the staked total is unchanged |
| Escrow.VeiZi.UnStake | test/testStake.js:284-302 | succeeds if and only if the caller stakes a position whose reward the provider can pay; pays as `collect` does, clears stakingId and both slots, returns the NFT, and subtracts the locked amount from the staked total |
| Escrow.VeiZi.LeavePool | test/testStake.js:298-302 | the record, the slots, the custody and the staked total after unstaking |
| Escrow.VeiZi.StakingInfo | test/testStakeConditions.js:230-274 | the staked nftId, its stakingId and its current weight, or zeros when nothing is staked |
| Escrow.VeiZi.ModifyEndBlock | test/testOwnerInterface.js:255-262 | owner only; touch under the old schedule, then set endBlock |
| Escrow.VeiZi.ModifyRewardPerBlock | test/testOwnerInterface.js:265-272 | owner only; touch under the old rate, then set rewardPerBlock |
| Escrow.VeiZi.ModifyStartBlock | test/testOwnerInterface.js:274-322 | owner only, before the start block, to a block after the current one and before endBlock; startBlock and lastTouchBlock both move to it |
| Escrow.VeiZi.ModifyProvider | test/testOwnerInterface.js:326-336 | owner only; sets the reward provider |

## Left out

- The contract's Solidity source is not part of this model. Guards the tests do not exercise follow the repository's prose description:
  - `createLock`'s positive amount and its `(now, now + MAXTIME]` window;
  - `increaseAmount`'s running-lock requirement;
  - `merge` of a position with itself.
- ERC20 and ERC721 internals (approvals, safe-transfer callbacks, token URIs) are reduced to a balance map and an owner map with per-account counts.
- `multicall` batches are modelled as sequential calls at one timestamp; atomic rollback of a failed batch is not modelled.
- Escrow.VeiZi.IncreaseAmount: on a staked position, the record's `lockAmount` and `stakeiZiAmount` keep their stake-time values. A later `collect` resyncs `lastVeiZi` to the weight of the larger current amount. The staked weights can then add up to more than `stakeiZiAmount`, and a collect can pay more than the emission of the blocks it covers. So `Reward.PendingWithinEmission` and `Reward.TotalPendingWithinEmission` are stated over weights, and the model does not prove "staked weights ≤ staked total" as an invariant of the contract state.
- The forward week walk of `Ledger.Replay` and `Escrow.VeiZi.CheckPointTo` is unbounded. The per-call bound on the weeks walked and its bound-exceeded rejection are not modelled, because no test reaches it.
- Escrow.VeiZi.Withdraw: its success condition includes the contract's own token balance covering the amount. The model does not prove that the contract always holds the locked tokens, because the reward provider may be the contract itself.
- uint256 overflow is not modelled: integers are unbounded, and every subtraction is guarded or clamped as the contract's checked arithmetic would make it.
- Historical weight queries (weight at a past time or block, binary search over `pointHistory`) are not exercised by the tests and are not modelled.
- The deployment and maintenance scripts, the Hardhat configuration and the older block-based tests (test/testWithdraw.js, test/testMerge.js, test/testCreateLock.js) are not part of this model: they do network I/O or assert nothing.
- Hardhat time and block control become the explicit `now` and `block` parameters.
- Escrow.VeiZi.constructor: the accumulator's touch point starts at startBlock, which the tests imply but do not show.
- `unStake` keeps the record's other fields (lockAmount, lastVeiZi and the snapshots) and zeroes only stakingId. The tests check only stakingId.
- `burn` leaves the lock record of the burnt id in place (amount 0). The tests check only the NFT count.
- WEEK and MAXTIME take the values 7 × 86400 and (4 × 365 + 1) × 86400 (scripts/nftStatistics.js:29). The proofs use only their positivity and the week alignment.

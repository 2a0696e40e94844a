/** The vote-escrow contract: iZi locked into position NFTs whose weight
    decays to the unlock time, a global checkpoint ledger of the total
    weight, and a staking pool that pays block rewards to staked positions.
    Every entry point takes the caller, the block time `now` and, where the
    reward accumulator is touched, the block number as parameters; a
    rejected call returns `Err` and changes nothing. */
module Escrow {
  import opened Decay
  import opened Ledger
  import opened Reward
  import opened Accounts
  import opened Staking

  datatype Error =
    | UnknownLock
    | NotOwner
    | ZeroAmount
    | LockExpired
    | LockNotExpired
    | BadUnlockTime
    | SameLock
    | EndBeforeSource
    | NotWithdrawn
    | AlreadyStaking
    | NotStaking
    | InsufficientBalance
    | StakingStarted
    | BadStartBlock

  datatype Outcome = Ok | Err(error: Error)

  /** A staking record after settling at the accumulator of `info`, with the
      position's weight now `veiZi`. */
  function Settled(s: StakingStatus, info: RewardInfo, veiZi: nat): StakingStatus
  {
    s.(lastVeiZi := veiZi,
       lastTouchBlock := info.lastTouchBlock,
       lastTouchAccRewardPerShare := info.accRewardPerShare)
  }

  /** The guards of `createLock`, in the order they are checked. */
  function CreateLockCheck(amount: nat, end: int, now: int, balance: nat): (r: Outcome)
    ensures r.Ok? <==> amount > 0 && now < end <= now + MAXTIME && balance >= amount
  {
    if amount == 0 then Err(ZeroAmount)
    else if end <= now || end > now + MAXTIME then Err(BadUnlockTime)
    else if balance < amount then Err(InsufficientBalance)
    else Ok
  }

  /** The guards of `merge`, in the order they are checked. */
  function MergeCheck(locks: seq<Lock>, ownerOf: map<nat, Addr>, caller: Addr, from: nat, to: nat): (r: Outcome)
    ensures r.Ok? <==>
      && from != to
      && 1 <= from <= |locks| && 1 <= to <= |locks|
      && Get(ownerOf, from) == caller && Get(ownerOf, to) == caller
      && locks[from - 1].end <= locks[to - 1].end
  {
    if from == to then Err(SameLock)
    else if !(1 <= from <= |locks|) || !(1 <= to <= |locks|) then Err(UnknownLock)
    else if Get(ownerOf, from) != caller || Get(ownerOf, to) != caller then Err(NotOwner)
    else if locks[to - 1].end < locks[from - 1].end then Err(EndBeforeSource)
    else Ok
  }

  /** The guards of `increaseUnlockTime`, in the order they are checked:
      the caller must own the position or have staked it. */
  function ExtendCheck(locks: seq<Lock>, owner: Addr, staker: Addr, caller: Addr, id: nat, end: int, now: int)
    : (r: Outcome)
    ensures r.Ok? <==>
      && 1 <= id <= |locks|
      && (owner == caller || staker == caller)
      && locks[id - 1].amount > 0
      && locks[id - 1].end < end
      && now < end <= now + MAXTIME
  {
    if !(1 <= id <= |locks|) then Err(UnknownLock)
    else if owner != caller && staker != caller then Err(NotOwner)
    else if locks[id - 1].amount == 0 then Err(ZeroAmount)
    else if end <= locks[id - 1].end || end <= now || end > now + MAXTIME then Err(BadUnlockTime)
    else Ok
  }

  /** The guards of `stake`, in the order they are checked: the caller
      owns a live, non-empty position and stakes nothing yet. */
  function StakeCheck(locks: seq<Lock>, owner: Addr, staked: nat, caller: Addr, id: nat, now: int): (r: Outcome)
    ensures r.Ok? <==>
      && 1 <= id <= |locks|
      && owner == caller
      && locks[id - 1].amount > 0
      && locks[id - 1].end > now
      && staked == 0
  {
    if !(1 <= id <= |locks|) then Err(UnknownLock)
    else if owner != caller then Err(NotOwner)
    else if locks[id - 1].amount == 0 then Err(ZeroAmount)
    else if locks[id - 1].end <= now then Err(LockExpired)
    else if staked != 0 then Err(AlreadyStaking)
    else Ok
  }

  class VeiZi {
    /** Address of the contract itself (custodian of locked tokens and of
        staked NFTs). */
    const self: Addr
    /** Administrator allowed to reconfigure the reward schedule. */
    var owner: Addr
    /** Lock of position id `k` at index `k - 1`; ids are `1..|nftLocked|`. */
    var nftLocked: seq<Lock>
    var ownerOf: map<nat, Addr>
    /** Balances of the locked token (iZi), which also pays the rewards. */
    var balances: map<Addr, nat>
    var pointHistory: seq<Point>
    var epoch: nat
    var slopeChanges: map<int, int>
    var rewardInfo: RewardInfo
    var stakingStatus: map<nat, StakingStatus>
    var stakedNft: map<Addr, nat>
    var stakedNftOwners: map<nat, Addr>
    var stakeiZiAmount: nat
    var stakingNum: nat

    function OwnerOf(id: nat): Addr
      reads this`ownerOf
    {
      Get(ownerOf, id)
    }

    function Staker(id: nat): Addr
      reads this`stakedNftOwners
    {
      Get(stakedNftOwners, id)
    }

    function StakedNftOf(a: Addr): nat
      reads this`stakedNft
    {
      Get(stakedNft, a)
    }

    function Status(id: nat): StakingStatus
      reads this`stakingStatus
    {
      StatusOf(stakingStatus, id)
    }

    /** Number of position NFTs held by `a`. */
    function NftBalanceOf(a: Addr): nat
      reads this`ownerOf, this`nftLocked
    {
      NftBalance(ownerOf, |nftLocked|, a)
    }

    function TokenBalance(a: Addr): nat
      reads this`balances
    {
      Get(balances, a)
    }

    /** Once the accumulator is touched at `block`, the reward provider holds
        enough tokens to pay the pending reward of position `id` (the first
        conjunct always holds under `Valid()`). */
    ghost predicate CanPayReward(id: nat, block: nat)
      reads this`rewardInfo, this`stakeiZiAmount, this`stakingStatus, this`balances
    {
      var info := Touch(rewardInfo, stakeiZiAmount, block);
      && Status(id).lastTouchAccRewardPerShare <= info.accRewardPerShare
      && TokenBalance(info.provider) >=
           Pending(Status(id).lastVeiZi, info.accRewardPerShare, Status(id).lastTouchAccRewardPerShare)
    }

    ghost function LastPoint(): Point
      reads this`pointHistory
      requires |pointHistory| >= 1
    {
      pointHistory[|pointHistory| - 1]
    }

    ghost function LedgerState(): (seq<Lock>, seq<Point>, map<int, int>)
      reads this`nftLocked, this`pointHistory, this`slopeChanges
    {
      (nftLocked, pointHistory, slopeChanges)
    }

    ghost predicate StakingValid()
      reads this`nftLocked, this`ownerOf, this`stakingStatus, this`stakedNft, this`stakedNftOwners
      reads this`stakingNum, this`rewardInfo, this`stakeiZiAmount
    {
      RegistryValid(|nftLocked|, self, ownerOf, stakingStatus, stakedNft, stakedNftOwners,
                    stakingNum, rewardInfo.accRewardPerShare, stakeiZiAmount)
    }

    ghost predicate Valid()
      reads this`nftLocked, this`pointHistory, this`epoch, this`slopeChanges, this`ownerOf
      reads this`stakingStatus, this`stakedNft, this`stakedNftOwners, this`stakingNum
      reads this`rewardInfo, this`stakeiZiAmount
    {
      && self != 0
      && LedgerValid(nftLocked, pointHistory, slopeChanges)
      && epoch == |pointHistory| - 1
      && LastPoint().ts >= 0
      && (forall id: nat :: id > |nftLocked| ==> Get(ownerOf, id) == 0)
      && StakingValid()
    }

    /** Deployment at time `deployTime`: no locks, the sentinel checkpoint
        at epoch 0, an empty staking pool, and the reward accumulator
        starting at `info.startBlock`. */
    constructor (contract: Addr, admin: Addr, tokenBalances: map<Addr, nat>, info: RewardInfo, deployTime: nat)
      requires contract != 0
      ensures Valid()
      ensures self == contract && owner == admin && balances == tokenBalances
      ensures nftLocked == [] && ownerOf == map[] && slopeChanges == map[]
      ensures pointHistory == [Point(0, 0, deployTime)] && epoch == 0
      ensures rewardInfo == info.(accRewardPerShare := 0, lastTouchBlock := info.startBlock)
      ensures stakingStatus == map[] && stakedNft == map[] && stakedNftOwners == map[]
      ensures stakeiZiAmount == 0 && stakingNum == 0
    {
      self := contract;
      owner := admin;
      balances := tokenBalances;
      nftLocked := [];
      ownerOf := map[];
      pointHistory := [Point(0, 0, deployTime)];
      epoch := 0;
      slopeChanges := map[];
      rewardInfo := info.(accRewardPerShare := 0, lastTouchBlock := info.startBlock);
      stakingStatus := map[];
      stakedNft := map[];
      stakedNftOwners := map[];
      stakeiZiAmount := 0;
      stakingNum := 0;
    }

    // -------------------------------------------------------------------
    // Checkpoint ledger
    // -------------------------------------------------------------------

    /** The replay loop: walk the latest point week by week up to `now`,
        appending a checkpoint at every crossed boundary with a non-zero
        slope change and a final one at `now`. */
    method CheckPointTo(now: int)
      requires |pointHistory| >= 1 && LastPoint().ts <= now && epoch == |pointHistory| - 1
      modifies this`pointHistory, this`epoch
      ensures pointHistory == CheckPoint(old(pointHistory), slopeChanges, now)
      ensures epoch == |pointHistory| - 1
    {
      ghost var target := CheckPoint(pointHistory, slopeChanges, now);
      var p := pointHistory[|pointHistory| - 1];
      while NextWeek(p.ts) < now
        invariant p.ts <= now
        invariant |pointHistory| >= 1 && epoch == |pointHistory| - 1
        invariant target == pointHistory + Replay(p, slopeChanges, now).0 + [Replay(p, slopeChanges, now).1]
        decreases now - p.ts
      {
        var w := NextWeek(p.ts);
        var d := SlopeChangeAt(slopeChanges, w);
        var q := Advance(p, w, d);
        if d != 0 {
          assert Replay(p, slopeChanges, now).0 == [q] + Replay(q, slopeChanges, now).0;
          pointHistory := pointHistory + [q];
          epoch := epoch + 1;
        }
        p := q;
      }
      var w := NextWeek(p.ts);
      p := Advance(p, now, if w == now then SlopeChangeAt(slopeChanges, w) else 0);
      pointHistory := pointHistory + [p];
      epoch := epoch + 1;
    }

    /** Lock `k + 1` becomes `n` at time `now`, recorded in the ledger. */
    method ChangeLock(k: nat, n: Lock, now: int)
      requires Valid() && LastPoint().ts <= now && k < |nftLocked| && n.end % WEEK == 0
      modifies this`nftLocked, this`pointHistory, this`epoch, this`slopeChanges
      ensures LedgerState() == UpdateLock(old(nftLocked), old(pointHistory), old(slopeChanges), k, n, now)
      ensures nftLocked == old(nftLocked)[k := n]
      ensures LastPoint() == ReferencePoint(nftLocked, now)
      ensures Valid()
    {
      UpdateLockKeepsLedger(nftLocked, pointHistory, slopeChanges, k, n, now);
      ghost var ls := nftLocked;
      CheckPointTo(now);
      var last := pointHistory[|pointHistory| - 1];
      pointHistory := pointHistory[|pointHistory| - 1 := RecordPoint(last, nftLocked[k], n)];
      slopeChanges := RecordSlopeChanges(slopeChanges, nftLocked[k], n, now);
      nftLocked := nftLocked[k := n];
    }

    /** Public `checkPoint`: bring the ledger up to `now` without changing
        any lock. */
    method CheckPointNow(now: int)
      requires Valid() && LastPoint().ts <= now
      modifies this`pointHistory, this`epoch
      ensures Valid()
      ensures pointHistory == CheckPoint(old(pointHistory), slopeChanges, now)
      ensures LastPoint() == ReferencePoint(nftLocked, now)
    {
      CheckPointKeepsLedger(nftLocked, pointHistory, slopeChanges, now);
      CheckPointTo(now);
    }

    // -------------------------------------------------------------------
    // Reward settlement
    // -------------------------------------------------------------------

    /** Settle the staked position `id`: touch the accumulator, pay the
        position's pending reward from the provider to `payee` and restart
        its accrual at weight `veiZi`. Fails, changing nothing, when the
        provider cannot pay. */
    method Settle(id: nat, payee: Addr, block: nat, veiZi: nat) returns (ok: bool, reward: nat)
      requires Valid() && Staker(id) != 0
      modifies this`rewardInfo, this`stakingStatus, this`balances
      ensures Valid()
      ensures ok <==> old(CanPayReward(id, block))
      ensures !ok ==> unchanged(this`rewardInfo, this`stakingStatus, this`balances) && reward == 0
      ensures ok ==>
        && rewardInfo == Touch(old(rewardInfo), stakeiZiAmount, block)
        && reward == Pending(old(Status(id)).lastVeiZi, rewardInfo.accRewardPerShare,
                             old(Status(id)).lastTouchAccRewardPerShare)
        && balances == Transfer(old(balances), old(rewardInfo).provider, payee, reward)
        && stakingStatus == old(stakingStatus)[id := Settled(old(Status(id)), rewardInfo, veiZi)]
    {
      var info := Touch(rewardInfo, stakeiZiAmount, block);
      TouchMonotone(rewardInfo, stakeiZiAmount, block);
      var s := StatusOf(stakingStatus, id);
      reward := Pending(s.lastVeiZi, info.accRewardPerShare, s.lastTouchAccRewardPerShare);
      if Get(balances, info.provider) < reward {
        return false, 0;
      }
      SettleKeepsRegistry(|nftLocked|, self, ownerOf, stakingStatus, stakedNft, stakedNftOwners,
                          stakingNum, rewardInfo.accRewardPerShare, stakeiZiAmount,
                          id, info.accRewardPerShare, veiZi, info.lastTouchBlock);
      rewardInfo := info;
      stakingStatus := stakingStatus[id := Settled(s, info, veiZi)];
      balances := Transfer(balances, info.provider, payee, reward);
      ok := true;
    }

    // -------------------------------------------------------------------
    // Locks
    // -------------------------------------------------------------------

    /** Lock `amount` until `unlockTime` floored to a week boundary; mints
        the next position id to the caller, who pays the amount. */
    method CreateLock(caller: Addr, amount: nat, unlockTime: int, now: int) returns (res: Outcome, id: nat)
      requires Valid() && LastPoint().ts <= now && caller != 0 && caller != self
      modifies this`nftLocked, this`pointHistory, this`epoch, this`slopeChanges, this`ownerOf, this`balances
      ensures Valid()
      ensures res.Ok? <==>
        && amount > 0
        && now < FloorWeek(unlockTime) <= now + MAXTIME
        && old(TokenBalance(caller)) >= amount
      ensures res.Err? ==> unchanged(this)
      ensures res.Ok? ==>
        && id == old(|nftLocked|) + 1
        && LedgerState() == UpdateLock(old(nftLocked) + [NoLock], old(pointHistory), old(slopeChanges),
                                       id - 1, Lock(amount, FloorWeek(unlockTime)), now)
        && ownerOf == old(ownerOf)[id := caller]
        && balances == Transfer(old(balances), caller, self, amount)
      ensures res.Ok? ==> LastPoint() == ReferencePoint(nftLocked, now)
      ensures res.Ok? ==> NftBalanceOf(caller) == old(NftBalanceOf(caller)) + 1
    {
      id := 0;
      var end := FloorWeek(unlockTime);
      res := CreateLockCheck(amount, end, now, Get(balances, caller));
      if res.Err? {
        return;
      }
      var n := |nftLocked|;
      id := n + 1;
      NftBalanceAfterMint(ownerOf, n, caller, caller);
      AppendKeepsLedger(nftLocked, pointHistory, slopeChanges);
      MintKeepsRegistry(n, self, ownerOf, stakingStatus, stakedNft, stakedNftOwners,
                        stakingNum, rewardInfo.accRewardPerShare, stakeiZiAmount, caller);
      var o := ownerOf[id := caller];
      forall j: nat | j > n + 1
        ensures Get(o, j) == 0
      {
        assert Get(ownerOf, j) == 0;
      }
      nftLocked, ownerOf := nftLocked + [NoLock], o;
      balances := Transfer(balances, caller, self, amount);
      ChangeLock(n, Lock(amount, end), now);
      res := Ok;
    }

    /** Add `value` to the lock of `id`; anyone may pay for any running
        lock, the end does not move and the staking records are left as
        they are. */
    method IncreaseAmount(caller: Addr, id: nat, value: nat, now: int) returns (res: Outcome)
      requires Valid() && LastPoint().ts <= now && caller != 0 && caller != self
      modifies this`nftLocked, this`pointHistory, this`epoch, this`slopeChanges, this`balances
      ensures Valid()
      ensures res.Ok? <==>
        && 1 <= id <= old(|nftLocked|)
        && value > 0
        && old(nftLocked[id - 1]).amount > 0
        && old(nftLocked[id - 1]).end > now
        && old(TokenBalance(caller)) >= value
      ensures res.Err? ==> unchanged(this)
      ensures res.Ok? ==>
        && LedgerState() == UpdateLock(old(nftLocked), old(pointHistory), old(slopeChanges), id - 1,
                                       Lock(old(nftLocked[id - 1]).amount + value, old(nftLocked[id - 1]).end), now)
        && balances == Transfer(old(balances), caller, self, value)
      ensures res.Ok? ==> LastPoint() == ReferencePoint(nftLocked, now)
    {
      if !(1 <= id <= |nftLocked|) {
        return Err(UnknownLock);
      }
      var lock := nftLocked[id - 1];
      if value == 0 || lock.amount == 0 {
        return Err(ZeroAmount);
      }
      if lock.end <= now {
        return Err(LockExpired);
      }
      if Get(balances, caller) < value {
        return Err(InsufficientBalance);
      }
      assert lock.end % WEEK == 0;
      ChangeLock(id - 1, Lock(lock.amount + value, lock.end), now);
      balances := Transfer(balances, caller, self, value);
      res := Ok;
    }

    /** The state change of a successful `increaseUnlockTime` of `id` to
        `end`: the ledger records the lock's new end; a staked position is
        settled (accumulator touched, pending reward paid by the provider to
        the caller, weight reset to the extended lock's weight); nothing else
        changes. */
    twostate predicate Extended(caller: Addr, id: nat, end: int, now: int, block: nat, reward: nat)
      reads this
    {
      && 1 <= id <= old(|nftLocked|)
      && |old(pointHistory)| >= 1 && old(LastPoint()).ts <= now
      && LedgerState() == UpdateLock(old(nftLocked), old(pointHistory), old(slopeChanges), id - 1,
                                     Lock(old(nftLocked[id - 1]).amount, end), now)
      && (old(Staker(id)) == 0 ==>
            && reward == 0 && balances == old(balances)
            && rewardInfo == old(rewardInfo) && stakingStatus == old(stakingStatus))
      && (old(Staker(id)) != 0 ==>
            && rewardInfo == Touch(old(rewardInfo), old(stakeiZiAmount), block)
            && old(Status(id)).lastTouchAccRewardPerShare <= rewardInfo.accRewardPerShare
            && reward == Pending(old(Status(id)).lastVeiZi, rewardInfo.accRewardPerShare,
                                 old(Status(id)).lastTouchAccRewardPerShare)
            && old(TokenBalance(rewardInfo.provider)) >= reward
            && balances == Transfer(old(balances), old(rewardInfo).provider, caller, reward)
            && stakingStatus == old(stakingStatus)[id := Settled(old(Status(id)), rewardInfo,
                                  Weight(old(nftLocked[id - 1]).amount, end, now))])
    }

    /** Move the end of the lock of `id` later, to `unlockTime` floored to a
        week boundary; an expired lock that still holds tokens is revived.
        The owner, or the staker of a staked position, may call it; a staked
        position is first paid its pending reward and its weight is reset to
        the extended lock's weight. */
    method IncreaseUnlockTime(caller: Addr, id: nat, unlockTime: int, now: int, block: nat)
      returns (res: Outcome, reward: nat)
      requires Valid() && LastPoint().ts <= now && caller != 0 && caller != self
      modifies this`nftLocked, this`pointHistory, this`epoch, this`slopeChanges, this`rewardInfo, this`stakingStatus, this`balances
      ensures Valid()
      ensures res.Ok? <==>
        && 1 <= id <= old(|nftLocked|)
        && (old(OwnerOf(id)) == caller || old(Staker(id)) == caller)
        && old(nftLocked[id - 1]).amount > 0
        && old(nftLocked[id - 1]).end < FloorWeek(unlockTime)
        && now < FloorWeek(unlockTime) <= now + MAXTIME
        && (old(Staker(id)) != 0 ==> old(CanPayReward(id, block)))
      ensures res.Err? ==> unchanged(this) && reward == 0
      ensures res.Ok? ==> Extended(caller, id, FloorWeek(unlockTime), now, block, reward)
      ensures res.Ok? ==> LastPoint() == ReferencePoint(nftLocked, now)
    {
      reward := 0;
      var end := FloorWeek(unlockTime);
      res := ExtendCheck(nftLocked, Get(ownerOf, id), Get(stakedNftOwners, id), caller, id, end, now);
      if res.Err? {
        return;
      }
      var ok;
      ok, reward := ExtendLock(caller, id, end, now, block);
      if !ok {
        res := Err(InsufficientBalance);
      }
    }

    /** The successful part of `increaseUnlockTime`; fails, changing nothing,
        only when the provider cannot pay a staked position's reward. */
    method ExtendLock(caller: Addr, id: nat, end: int, now: int, block: nat) returns (ok: bool, reward: nat)
      requires Valid() && LastPoint().ts <= now && 1 <= id <= |nftLocked| && end % WEEK == 0
      modifies this`nftLocked, this`pointHistory, this`epoch, this`slopeChanges, this`rewardInfo, this`stakingStatus, this`balances
      ensures Valid()
      ensures ok <==> old(Staker(id)) == 0 || old(CanPayReward(id, block))
      ensures !ok ==> unchanged(this) && reward == 0
      ensures ok ==> Extended(caller, id, end, now, block, reward)
      ensures ok ==> LastPoint() == ReferencePoint(nftLocked, now)
    {
      if Get(stakedNftOwners, id) != 0 {
        ok, reward := SettleAndExtend(caller, id, end, now, block);
      } else {
        reward := 0;
        ChangeLock(id - 1, Lock(nftLocked[id - 1].amount, end), now);
        ok := true;
      }
    }

    /** `ExtendLock` for a staked position: settle, then record the new end. */
    method SettleAndExtend(caller: Addr, id: nat, end: int, now: int, block: nat) returns (ok: bool, reward: nat)
      requires Valid() && LastPoint().ts <= now && 1 <= id <= |nftLocked| && end % WEEK == 0
      requires Staker(id) != 0
      modifies this`nftLocked, this`pointHistory, this`epoch, this`slopeChanges, this`rewardInfo, this`stakingStatus, this`balances
      ensures Valid()
      ensures ok <==> old(CanPayReward(id, block))
      ensures !ok ==> unchanged(this) && reward == 0
      ensures ok ==> Extended(caller, id, end, now, block, reward)
      ensures ok ==> LastPoint() == ReferencePoint(nftLocked, now)
    {
      var lock := nftLocked[id - 1];
      TouchMonotone(rewardInfo, stakeiZiAmount, block);
      ok, reward := Settle(id, caller, block, Weight(lock.amount, end, now));
      if !ok {
        return;
      }
      ChangeLock(id - 1, Lock(lock.amount, end), now);
    }

    /** Merge the lock of `from` into the lock of `to`: both must belong to
        the caller and `to` must not end before `from`; `from` keeps its end
        with amount 0 and `to` receives the sum. */
    method Merge(caller: Addr, from: nat, to: nat, now: int) returns (res: Outcome)
      requires Valid() && LastPoint().ts <= now && caller != 0 && caller != self
      modifies this`nftLocked, this`pointHistory, this`epoch, this`slopeChanges
      ensures Valid()
      ensures res.Ok? <==>
        && from != to
        && 1 <= from <= old(|nftLocked|) && 1 <= to <= old(|nftLocked|)
        && old(OwnerOf(from)) == caller && old(OwnerOf(to)) == caller
        && old(nftLocked[from - 1]).end <= old(nftLocked[to - 1]).end
      ensures old(Staker(from)) != 0 || old(Staker(to)) != 0 ==> res.Err?
      ensures res.Err? ==> unchanged(this)
      ensures res.Ok? ==>
        var lf, lt := old(nftLocked[from - 1]), old(nftLocked[to - 1]);
        var mid := UpdateLock(old(nftLocked), old(pointHistory), old(slopeChanges), from - 1, Lock(0, lf.end), now);
        && |mid.1| >= 1 && mid.1[|mid.1| - 1].ts <= now
        && LedgerState() == UpdateLock(mid.0, mid.1, mid.2, to - 1, Lock(lf.amount + lt.amount, lt.end), now)
        && nftLocked == old(nftLocked)[from - 1 := Lock(0, lf.end)][to - 1 := Lock(lf.amount + lt.amount, lt.end)]
      ensures res.Ok? ==> LastPoint() == ReferencePoint(nftLocked, now)
    {
      res := MergeCheck(nftLocked, ownerOf, caller, from, to);
      if res.Err? {
        return;
      }
      NotHeldNotStaked(|nftLocked|, self, ownerOf, stakingStatus, stakedNft, stakedNftOwners,
                       stakingNum, rewardInfo.accRewardPerShare, stakeiZiAmount, from);
      NotHeldNotStaked(|nftLocked|, self, ownerOf, stakingStatus, stakedNft, stakedNftOwners,
                       stakingNum, rewardInfo.accRewardPerShare, stakeiZiAmount, to);
      var lf, lt := nftLocked[from - 1], nftLocked[to - 1];
      assert lf.end % WEEK == 0 && lt.end % WEEK == 0;
      ChangeLock(from - 1, Lock(0, lf.end), now);
      ghost var mid := LedgerState();
      ChangeLock(to - 1, Lock(lf.amount + lt.amount, lt.end), now);
      assert LedgerState() == UpdateLock(mid.0, mid.1, mid.2, to - 1, Lock(lf.amount + lt.amount, lt.end), now);
      res := Ok;
    }

    /** Take back the tokens of an expired lock owned by the caller; the lock
        reads (0, 0) afterwards and the ledger is brought up to `now`. */
    method Withdraw(caller: Addr, id: nat, now: int) returns (res: Outcome)
      requires Valid() && LastPoint().ts <= now && caller != 0 && caller != self
      modifies this`nftLocked, this`pointHistory, this`epoch, this`slopeChanges, this`balances
      ensures Valid()
      ensures res.Ok? <==>
        && 1 <= id <= old(|nftLocked|)
        && old(OwnerOf(id)) == caller
        && old(nftLocked[id - 1]).end <= now
        && old(TokenBalance(self)) >= old(nftLocked[id - 1]).amount
      ensures old(Staker(id)) != 0 ==> res.Err?
      ensures res.Err? ==> unchanged(this)
      ensures res.Ok? ==>
        && LedgerState() == UpdateLock(old(nftLocked), old(pointHistory), old(slopeChanges), id - 1, Lock(0, 0), now)
        && balances == Transfer(old(balances), self, caller, old(nftLocked[id - 1]).amount)
      ensures res.Ok? ==> LastPoint() == ReferencePoint(nftLocked, now)
    {
      if !(1 <= id <= |nftLocked|) {
        return Err(UnknownLock);
      }
      if Get(ownerOf, id) != caller {
        return Err(NotOwner);
      }
      var lock := nftLocked[id - 1];
      if lock.end > now {
        return Err(LockNotExpired);
      }
      if Get(balances, self) < lock.amount {
        return Err(InsufficientBalance);
      }
      ChangeLock(id - 1, Lock(0, 0), now);
      balances := Transfer(balances, self, caller, lock.amount);
      res := Ok;
    }

    /** Destroy the position NFT of an emptied lock owned by the caller. */
    method Burn(caller: Addr, id: nat) returns (res: Outcome)
      requires Valid() && caller != 0 && caller != self
      modifies this`ownerOf
      ensures Valid()
      ensures res.Ok? <==>
        && 1 <= id <= old(|nftLocked|)
        && old(OwnerOf(id)) == caller
        && old(nftLocked[id - 1]).amount == 0
      ensures res.Err? ==> unchanged(this)
      ensures res.Ok? ==>
        && ownerOf == old(ownerOf)[id := 0]
      ensures res.Ok? ==> NftBalanceOf(caller) == old(NftBalanceOf(caller)) - 1
    {
      if !(1 <= id <= |nftLocked|) {
        return Err(UnknownLock);
      }
      if Get(ownerOf, id) != caller {
        return Err(NotOwner);
      }
      if nftLocked[id - 1].amount != 0 {
        return Err(NotWithdrawn);
      }
      NftBalanceAfterMove(ownerOf, |nftLocked|, id, 0, caller);
      MoveKeepsRegistry(|nftLocked|, self, ownerOf, stakingStatus, stakedNft, stakedNftOwners,
                        stakingNum, rewardInfo.accRewardPerShare, stakeiZiAmount, id, 0);
      ghost var o := ownerOf;
      ownerOf := ownerOf[id := 0];
      forall j: nat | j > |nftLocked|
        ensures Get(ownerOf, j) == 0
      {
        assert Get(o, j) == 0;
      }
      res := Ok;
    }

    // -------------------------------------------------------------------
    // Staking
    // -------------------------------------------------------------------

    /** Stake position `id`: the caller must own it, it must hold tokens
        and not be expired, and the caller must not be staking another
        position. The accumulator is touched first; the position moves into
        the contract's custody with the next staking id, its current weight
        and the current accumulator; its amount joins the staked total. */
    method Stake(caller: Addr, id: nat, now: int, block: nat) returns (res: Outcome)
      requires Valid() && caller != 0 && caller != self
      modifies this`rewardInfo, this`stakingNum, this`stakingStatus, this`stakeiZiAmount,
               this`ownerOf, this`stakedNft, this`stakedNftOwners
      ensures Valid()
      ensures res == old(StakeCheck(nftLocked, OwnerOf(id), StakedNftOf(caller), caller, id, now))
      ensures res.Err? ==> unchanged(this)
      ensures res.Ok? ==>
        && rewardInfo == Touch(old(rewardInfo), old(stakeiZiAmount), block)
        && stakingNum == old(stakingNum) + 1
        && stakingStatus == old(stakingStatus)[id := StakingStatus(
             stakingNum, old(nftLocked[id - 1]).amount,
             Weight(old(nftLocked[id - 1]).amount, old(nftLocked[id - 1]).end, now),
             rewardInfo.lastTouchBlock, rewardInfo.accRewardPerShare)]
        && stakeiZiAmount == old(stakeiZiAmount) + old(nftLocked[id - 1]).amount
        && ownerOf == old(ownerOf)[id := self]
        && stakedNft == old(stakedNft)[caller := id]
        && stakedNftOwners == old(stakedNftOwners)[id := caller]
    {
      res := StakeCheck(nftLocked, Get(ownerOf, id), Get(stakedNft, caller), caller, id, now);
      if res.Ok? {
        EnterPool(caller, id, now, block);
      }
    }

    /** The state change of a successful `stake`. */
    method EnterPool(caller: Addr, id: nat, now: int, block: nat)
      requires Valid() && caller != 0 && caller != self
      requires 1 <= id <= |nftLocked| && OwnerOf(id) == caller && StakedNftOf(caller) == 0
      modifies this`rewardInfo, this`stakingNum, this`stakingStatus, this`stakeiZiAmount
      modifies this`ownerOf, this`stakedNft, this`stakedNftOwners
      ensures Valid()
      ensures rewardInfo == Touch(old(rewardInfo), old(stakeiZiAmount), block)
      ensures stakingNum == old(stakingNum) + 1
      ensures stakingStatus == old(stakingStatus)[id := StakingStatus(
                stakingNum, nftLocked[id - 1].amount,
                Weight(nftLocked[id - 1].amount, nftLocked[id - 1].end, now),
                rewardInfo.lastTouchBlock, rewardInfo.accRewardPerShare)]
      ensures stakeiZiAmount == old(stakeiZiAmount) + nftLocked[id - 1].amount
      ensures ownerOf == old(ownerOf)[id := self]
      ensures stakedNft == old(stakedNft)[caller := id]
      ensures stakedNftOwners == old(stakedNftOwners)[id := caller]
    {
      var lock := nftLocked[id - 1];
      var info := Touch(rewardInfo, stakeiZiAmount, block);
      TouchMonotone(rewardInfo, stakeiZiAmount, block);
      var veiZi := Weight(lock.amount, lock.end, now);
      StakeKeepsRegistry(|nftLocked|, self, ownerOf, stakingStatus, stakedNft, stakedNftOwners,
                         stakingNum, rewardInfo.accRewardPerShare, stakeiZiAmount,
                         id, caller, info.accRewardPerShare, lock.amount, veiZi, info.lastTouchBlock);
      var o := ownerOf[id := self];
      forall j: nat | j > |nftLocked| ensures Get(o, j) == 0 {
        assert Get(ownerOf, j) == 0;
      }
      rewardInfo, stakingNum, stakeiZiAmount, ownerOf := info, stakingNum + 1, stakeiZiAmount + lock.amount, o;
      stakingStatus := stakingStatus[id := StakingStatus(stakingNum, lock.amount, veiZi,
                                                         info.lastTouchBlock, info.accRewardPerShare)];
      stakedNft, stakedNftOwners := stakedNft[caller := id], stakedNftOwners[id := caller];
    }

    /** Collect the reward of the caller's staked position: touch, pay the
        pending reward from the provider, restart accrual at the position's
        current weight. The staked total does not change. */
    method Collect(caller: Addr, now: int, block: nat) returns (res: Outcome, reward: nat)
      requires Valid() && caller != 0 && caller != self
      modifies this`rewardInfo, this`stakingStatus, this`balances
      ensures Valid()
      ensures old(StakedNftOf(caller)) == 0 ==> res == Err(NotStaking)
      ensures res.Ok? <==> old(StakedNftOf(caller)) != 0 && old(CanPayReward(StakedNftOf(caller), block))
      ensures res.Err? ==> unchanged(this) && reward == 0
      ensures res.Ok? ==>
        var id := old(StakedNftOf(caller));
        && 1 <= id <= old(|nftLocked|)
        && rewardInfo == Touch(old(rewardInfo), old(stakeiZiAmount), block)
        && old(Status(id)).lastTouchAccRewardPerShare <= rewardInfo.accRewardPerShare
        && reward == Pending(old(Status(id)).lastVeiZi, rewardInfo.accRewardPerShare,
                             old(Status(id)).lastTouchAccRewardPerShare)
        && old(TokenBalance(rewardInfo.provider)) >= reward
        && balances == Transfer(old(balances), old(rewardInfo).provider, caller, reward)
        && stakingStatus == old(stakingStatus)[id := Settled(old(Status(id)), rewardInfo,
             Weight(old(nftLocked[id - 1]).amount, old(nftLocked[id - 1]).end, now))]
    {
      reward := 0;
      var id := Get(stakedNft, caller);
      if id == 0 {
        return Err(NotStaking), reward;
      }
      var lock := nftLocked[id - 1];
      TouchMonotone(rewardInfo, stakeiZiAmount, block);
      var ok;
      ok, reward := Settle(id, caller, block, Weight(lock.amount, lock.end, now));
      res := if ok then Ok else Err(InsufficientBalance);
    }

    /** Unstake the caller's position: settle and pay its reward as
        `collect` does, close its record, take its amount out of the staked
        total, clear the caller's slot and hand the position back. */
    method UnStake(caller: Addr, now: int, block: nat) returns (res: Outcome, reward: nat)
      requires Valid() && caller != 0 && caller != self
      modifies this`rewardInfo, this`stakingStatus, this`balances, this`stakeiZiAmount,
               this`ownerOf, this`stakedNft, this`stakedNftOwners
      ensures Valid()
      ensures old(StakedNftOf(caller)) == 0 ==> res == Err(NotStaking)
      ensures res.Ok? <==> old(StakedNftOf(caller)) != 0 && old(CanPayReward(StakedNftOf(caller), block))
      ensures res.Err? ==> unchanged(this) && reward == 0
      ensures res.Ok? ==>
        var id := old(StakedNftOf(caller));
        && 1 <= id <= old(|nftLocked|)
        && rewardInfo == Touch(old(rewardInfo), old(stakeiZiAmount), block)
        && old(Status(id)).lastTouchAccRewardPerShare <= rewardInfo.accRewardPerShare
        && reward == Pending(old(Status(id)).lastVeiZi, rewardInfo.accRewardPerShare,
                             old(Status(id)).lastTouchAccRewardPerShare)
        && old(TokenBalance(rewardInfo.provider)) >= reward
        && balances == Transfer(old(balances), old(rewardInfo).provider, caller, reward)
        && stakingStatus == old(stakingStatus)[id := Settled(old(Status(id)), rewardInfo,
             Weight(old(nftLocked[id - 1]).amount, old(nftLocked[id - 1]).end, now)).(stakingId := 0)]
        && old(stakeiZiAmount) >= old(Status(id)).lockAmount
        && stakeiZiAmount == old(stakeiZiAmount) - old(Status(id)).lockAmount
        && ownerOf == old(ownerOf)[id := caller]
        && stakedNft == old(stakedNft)[caller := 0]
        && stakedNftOwners == old(stakedNftOwners)[id := 0]
      ensures res.Ok? ==> StakedNftOf(caller) == 0 && NftBalanceOf(caller) == old(NftBalanceOf(caller)) + 1
    {
      reward := 0;
      var id := Get(stakedNft, caller);
      if id == 0 {
        return Err(NotStaking), reward;
      }
      var lock := nftLocked[id - 1];
      TouchMonotone(rewardInfo, stakeiZiAmount, block);
      var ok;
      ok, reward := Settle(id, caller, block, Weight(lock.amount, lock.end, now));
      if !ok {
        return Err(InsufficientBalance), reward;
      }
      LeavePool(caller, id);
      res := Ok;
    }

    /** The state change of a successful `unStake` after settling: the
        record is closed, the amount leaves the staked total, the slots are
        cleared and the position returns to the staker. */
    method LeavePool(caller: Addr, id: nat)
      requires Valid() && caller != 0 && caller != self && id != 0 && StakedNftOf(caller) == id
      modifies this`stakingStatus, this`stakeiZiAmount, this`ownerOf, this`stakedNft, this`stakedNftOwners
      ensures Valid()
      ensures old(stakeiZiAmount) >= old(Status(id)).lockAmount
      ensures stakeiZiAmount == old(stakeiZiAmount) - old(Status(id)).lockAmount
      ensures stakingStatus == old(stakingStatus)[id := old(Status(id)).(stakingId := 0)]
      ensures ownerOf == old(ownerOf)[id := caller]
      ensures stakedNft == old(stakedNft)[caller := 0]
      ensures stakedNftOwners == old(stakedNftOwners)[id := 0]
      ensures NftBalanceOf(caller) == old(NftBalanceOf(caller)) + 1
    {
      UnstakeKeepsRegistry(|nftLocked|, self, ownerOf, stakingStatus, stakedNft, stakedNftOwners,
                           stakingNum, rewardInfo.accRewardPerShare, stakeiZiAmount, caller);
      NftBalanceAfterMove(ownerOf, |nftLocked|, id, caller, caller);
      var s := StatusOf(stakingStatus, id);
      var o := ownerOf[id := caller];
      forall j: nat | j > |nftLocked| ensures Get(o, j) == 0 {
        assert Get(ownerOf, j) == 0;
      }
      stakeiZiAmount, stakingStatus, ownerOf := stakeiZiAmount - s.lockAmount, stakingStatus[id := s.(stakingId := 0)], o;
      stakedNft, stakedNftOwners := stakedNft[caller := 0], stakedNftOwners[id := 0];
    }

    /** What `stakingInfo(account)` reports at time `now`: the staked
        position, its staking id and its current weight, or zeros when the
        account stakes nothing. */
    function StakingInfo(account: Addr, now: int): (r: (nat, nat, nat))
      reads this
      requires Valid()
      ensures r.0 == StakedNftOf(account)
      ensures r.0 == 0 ==> r == (0, 0, 0)
      ensures r.0 != 0 ==>
        && 1 <= r.0 <= |nftLocked| && Staker(r.0) == account && r.1 != 0
        && r.1 == Status(r.0).stakingId
        && r.2 == Weight(nftLocked[r.0 - 1].amount, nftLocked[r.0 - 1].end, now)
    {
      var id := Get(stakedNft, account);
      if id == 0 then (0, 0, 0)
      else (id, StatusOf(stakingStatus, id).stakingId,
            Weight(nftLocked[id - 1].amount, nftLocked[id - 1].end, now))
    }

    // -------------------------------------------------------------------
    // Owner reconfiguration of the reward schedule
    // -------------------------------------------------------------------

    /** Set the last rewarded block; the accumulator is touched first under
        the old schedule. */
    method ModifyEndBlock(caller: Addr, endBlock: nat, block: nat) returns (res: Outcome)
      requires Valid()
      modifies this`rewardInfo
      ensures Valid()
      ensures res.Ok? <==> caller == owner
      ensures res.Err? ==> rewardInfo == old(rewardInfo)
      ensures res.Ok? ==> rewardInfo == Touch(old(rewardInfo), stakeiZiAmount, block).(endBlock := endBlock)
    {
      if caller != owner {
        return Err(NotOwner);
      }
      TouchMonotone(rewardInfo, stakeiZiAmount, block);
      rewardInfo := Touch(rewardInfo, stakeiZiAmount, block).(endBlock := endBlock);
      res := Ok;
    }

    /** Set the per-block emission; the accumulator is touched first under
        the old rate. */
    method ModifyRewardPerBlock(caller: Addr, rewardPerBlock: nat, block: nat) returns (res: Outcome)
      requires Valid()
      modifies this`rewardInfo
      ensures Valid()
      ensures res.Ok? <==> caller == owner
      ensures res.Err? ==> rewardInfo == old(rewardInfo)
      ensures res.Ok? ==>
        rewardInfo == Touch(old(rewardInfo), stakeiZiAmount, block).(rewardPerBlock := rewardPerBlock)
    {
      if caller != owner {
        return Err(NotOwner);
      }
      TouchMonotone(rewardInfo, stakeiZiAmount, block);
      rewardInfo := Touch(rewardInfo, stakeiZiAmount, block).(rewardPerBlock := rewardPerBlock);
      res := Ok;
    }

    /** Move the first rewarded block, allowed only before rewards have
        started and only to a block after the current one and before the end
        block; the touch point moves with it. */
    method ModifyStartBlock(caller: Addr, startBlock: nat, block: nat) returns (res: Outcome)
      requires Valid()
      modifies this`rewardInfo
      ensures Valid()
      ensures res.Ok? <==>
        && caller == owner
        && block < old(rewardInfo).startBlock
        && block < startBlock < old(rewardInfo).endBlock
      ensures res.Err? ==> rewardInfo == old(rewardInfo)
      ensures res.Ok? ==> rewardInfo == old(rewardInfo).(startBlock := startBlock, lastTouchBlock := startBlock)
    {
      if caller != owner {
        return Err(NotOwner);
      }
      if block >= rewardInfo.startBlock {
        return Err(StakingStarted);
      }
      if startBlock <= block || startBlock >= rewardInfo.endBlock {
        return Err(BadStartBlock);
      }
      rewardInfo := rewardInfo.(startBlock := startBlock, lastTouchBlock := startBlock);
      res := Ok;
    }

    /** Set the account that pays the rewards. */
    method ModifyProvider(caller: Addr, provider: Addr) returns (res: Outcome)
      requires Valid()
      modifies this`rewardInfo
      ensures Valid()
      ensures res.Ok? <==> caller == owner
      ensures res.Err? ==> rewardInfo == old(rewardInfo)
      ensures res.Ok? ==> rewardInfo == old(rewardInfo).(provider := provider)
    {
      if caller != owner {
        return Err(NotOwner);
      }
      rewardInfo := rewardInfo.(provider := provider);
      res := Ok;
    }
  }
}

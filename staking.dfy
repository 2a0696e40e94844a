/** The staking registry: which account staked which position, the
    per-position staking records, the global staking-id counter and the
    staked total, with the invariant tying them together and its
    preservation by stake, settlement and unstake. */
module Staking {
  import opened Reward
  import opened Accounts

  /** Live records `i` and `j` carry the same staking id. */
  predicate SharesStakingId(st: map<nat, StakingStatus>, i: nat, j: nat)
  {
    StatusOf(st, i).stakingId != 0 && StatusOf(st, i).stakingId == StatusOf(st, j).stakingId
  }

  /** Registry invariant over positions `1..n`:
      - a staked position (one with a staker) is held by the contract `self`,
        has a live record and is the one position its staker has staked;
      - an account's staked slot points back to it, and the zero address
        has none;
      - a live record always has a staker;
      - staking ids come from the counter and no two live records share one;
      - no record has settled beyond the accumulator `acc`;
      - `total` is the sum of the live records' staked amounts. */
  ghost predicate RegistryValid(
    n: nat, self: Addr, ownerOf: map<nat, Addr>, st: map<nat, StakingStatus>,
    stakedNft: map<Addr, nat>, stakers: map<nat, Addr>, counter: nat, acc: nat, total: nat)
  {
    && (forall id: nat :: Get(stakers, id) != 0 ==>
          && 1 <= id <= n
          && Get(ownerOf, id) == self
          && StatusOf(st, id).stakingId != 0
          && Get(stakedNft, Get(stakers, id)) == id)
    && Get(stakedNft, 0) == 0
    && (forall a: Addr :: Get(stakedNft, a) != 0 ==> Get(stakers, Get(stakedNft, a)) == a)
    && (forall id: nat :: StatusOf(st, id).stakingId != 0 ==> Get(stakers, id) != 0)
    && (forall id: nat :: StatusOf(st, id).stakingId <= counter)
    && (forall i: nat, j: nat :: SharesStakingId(st, i, j) ==> i == j)
    && (forall id: nat :: StatusOf(st, id).lastTouchAccRewardPerShare <= acc)
    && total == StakedAmount(st, n)
  }

  /** A position not held by the contract is not staked. */
  lemma NotHeldNotStaked(
    n: nat, self: Addr, ownerOf: map<nat, Addr>, st: map<nat, StakingStatus>,
    stakedNft: map<Addr, nat>, stakers: map<nat, Addr>, counter: nat, acc: nat, total: nat, id: nat)
    requires RegistryValid(n, self, ownerOf, st, stakedNft, stakers, counter, acc, total)
    requires Get(ownerOf, id) != self
    ensures Get(stakers, id) == 0 && StatusOf(st, id).stakingId == 0
  {
  }

  /** Opening position `n + 1` for an account other than the contract keeps
      the registry valid. */
  lemma MintKeepsRegistry(
    n: nat, self: Addr, ownerOf: map<nat, Addr>, st: map<nat, StakingStatus>,
    stakedNft: map<Addr, nat>, stakers: map<nat, Addr>, counter: nat, acc: nat, total: nat, to: Addr)
    requires RegistryValid(n, self, ownerOf, st, stakedNft, stakers, counter, acc, total)
    requires to != self
    ensures RegistryValid(n + 1, self, ownerOf[n + 1 := to], st, stakedNft, stakers, counter, acc, total)
  {
    var o := ownerOf[n + 1 := to];
    assert StatusOf(st, n + 1).stakingId == 0;
    StakedAmountUnaffected(st, n, n + 1, Unstaked);
    assert StakedAmount(st, n + 1) == StakedAmount(st, n);
    forall id: nat | Get(stakers, id) != 0
      ensures Get(o, id) == self
    {
      assert Get(ownerOf, id) == self;
    }
  }

  /** Handing an unstaked position from one account to another (burn hands
      it to the zero address) keeps the registry valid. */
  lemma MoveKeepsRegistry(
    n: nat, self: Addr, ownerOf: map<nat, Addr>, st: map<nat, StakingStatus>,
    stakedNft: map<Addr, nat>, stakers: map<nat, Addr>, counter: nat, acc: nat, total: nat, id: nat, to: Addr)
    requires RegistryValid(n, self, ownerOf, st, stakedNft, stakers, counter, acc, total)
    requires Get(ownerOf, id) != self
    ensures RegistryValid(n, self, ownerOf[id := to], st, stakedNft, stakers, counter, acc, total)
  {
    var o := ownerOf[id := to];
    forall k: nat | Get(stakers, k) != 0
      ensures Get(o, k) == self
    {
      assert Get(ownerOf, k) == self;
    }
  }

  /** Settling a staked position — the accumulator moves up to `acc2`, the
      record restarts accrual at `acc2` with a new weight, nothing else about
      it changes — keeps the registry valid. */
  lemma SettleKeepsRegistry(
    n: nat, self: Addr, ownerOf: map<nat, Addr>, st: map<nat, StakingStatus>,
    stakedNft: map<Addr, nat>, stakers: map<nat, Addr>, counter: nat, acc: nat, total: nat,
    id: nat, acc2: nat, veiZi: nat, block: nat)
    requires RegistryValid(n, self, ownerOf, st, stakedNft, stakers, counter, acc, total)
    requires Get(stakers, id) != 0 && acc <= acc2
    ensures RegistryValid(n, self, ownerOf,
      st[id := StatusOf(st, id).(lastVeiZi := veiZi, lastTouchBlock := block, lastTouchAccRewardPerShare := acc2)],
      stakedNft, stakers, counter, acc2, total)
  {
    var s := StatusOf(st, id);
    var s' := s.(lastVeiZi := veiZi, lastTouchBlock := block, lastTouchAccRewardPerShare := acc2);
    var st' := st[id := s'];
    StakedAmountAfterUpdate(st, n, id, s');
    forall k: nat
      ensures StatusOf(st', k).stakingId == StatusOf(st, k).stakingId
      ensures StatusOf(st', k).lastTouchAccRewardPerShare <= acc2
    {
    }
    forall i: nat, j: nat | SharesStakingId(st', i, j)
      ensures i == j
    {
      assert SharesStakingId(st, i, j);
    }
  }

  /** Staking position `id`, held by `staker` and not staked, for an account
      with an empty slot: the position moves to the contract and gets the
      next staking id, and its amount joins the total. */
  lemma StakeKeepsRegistry(
    n: nat, self: Addr, ownerOf: map<nat, Addr>, st: map<nat, StakingStatus>,
    stakedNft: map<Addr, nat>, stakers: map<nat, Addr>, counter: nat, acc: nat, total: nat,
    id: nat, staker: Addr, acc2: nat, amount: nat, veiZi: nat, block: nat)
    requires RegistryValid(n, self, ownerOf, st, stakedNft, stakers, counter, acc, total)
    requires 1 <= id <= n && staker != 0 && staker != self && Get(ownerOf, id) == staker
    requires Get(stakedNft, staker) == 0 && acc <= acc2
    ensures RegistryValid(n, self, ownerOf[id := self],
      st[id := StakingStatus(counter + 1, amount, veiZi, block, acc2)],
      stakedNft[staker := id], stakers[id := staker], counter + 1, acc2, total + amount)
  {
    var s' := StakingStatus(counter + 1, amount, veiZi, block, acc2);
    var st', sn', so', o' := st[id := s'], stakedNft[staker := id], stakers[id := staker], ownerOf[id := self];
    assert StatusOf(st, id).stakingId == 0;
    StakedAmountAfterUpdate(st, n, id, s');
    forall k: nat | Get(so', k) != 0
      ensures 1 <= k <= n && Get(o', k) == self && StatusOf(st', k).stakingId != 0 && Get(sn', Get(so', k)) == k
    {
      if k != id {
        assert Get(stakers, k) != 0;
        assert Get(stakedNft, Get(stakers, k)) == k;
        assert Get(stakers, k) != staker;
      }
    }
    forall a: Addr | Get(sn', a) != 0
      ensures Get(so', Get(sn', a)) == a
    {
      if a != staker {
        assert Get(stakers, Get(stakedNft, a)) == a;
        assert Get(stakedNft, a) != id;
      }
    }
    forall k: nat
      ensures StatusOf(st', k).stakingId <= counter + 1
      ensures StatusOf(st', k).lastTouchAccRewardPerShare <= acc2
      ensures StatusOf(st', k).stakingId != 0 ==> Get(so', k) != 0
    {
      if k != id {
        assert StatusOf(st', k) == StatusOf(st, k);
      }
    }
    forall i: nat, j: nat | SharesStakingId(st', i, j)
      ensures i == j
    {
      assert StatusOf(st, i).stakingId <= counter && StatusOf(st, j).stakingId <= counter;
      if i != id && j != id {
        assert StatusOf(st', i) == StatusOf(st, i);
        assert StatusOf(st', j) == StatusOf(st, j);
        assert SharesStakingId(st, i, j);
      }
    }
  }

  /** Unstaking the position `staker` has staked: the position goes back to
      the staker, its record is closed, its slot and its staker are cleared
      and its amount leaves the total. */
  lemma UnstakeKeepsRegistry(
    n: nat, self: Addr, ownerOf: map<nat, Addr>, st: map<nat, StakingStatus>,
    stakedNft: map<Addr, nat>, stakers: map<nat, Addr>, counter: nat, acc: nat, total: nat, staker: Addr)
    requires RegistryValid(n, self, ownerOf, st, stakedNft, stakers, counter, acc, total)
    requires Get(stakedNft, staker) != 0
    ensures var id := Get(stakedNft, staker);
      && total >= StatusOf(st, id).lockAmount
      && RegistryValid(n, self, ownerOf[id := staker],
           st[id := StatusOf(st, id).(stakingId := 0)],
           stakedNft[staker := 0], stakers[id := 0], counter, acc, total - StatusOf(st, id).lockAmount)
  {
    var id := Get(stakedNft, staker);
    var s' := StatusOf(st, id).(stakingId := 0);
    var st', sn', so', o' := st[id := s'], stakedNft[staker := 0], stakers[id := 0], ownerOf[id := staker];
    assert staker != 0;
    assert Get(stakers, id) == staker;
    assert 1 <= id <= n;
    StakedAmountAfterUpdate(st, n, id, s');
    forall k: nat | Get(so', k) != 0
      ensures 1 <= k <= n && Get(o', k) == self && StatusOf(st', k).stakingId != 0 && Get(sn', Get(so', k)) == k
    {
      assert Get(stakers, k) != 0;
      assert Get(stakers, k) != staker;
    }
    forall a: Addr | Get(sn', a) != 0
      ensures Get(so', Get(sn', a)) == a
    {
      assert Get(stakers, Get(stakedNft, a)) == a;
    }
    forall k: nat
      ensures StatusOf(st', k).stakingId <= counter
      ensures StatusOf(st', k).lastTouchAccRewardPerShare <= acc
      ensures StatusOf(st', k).stakingId != 0 ==> Get(so', k) != 0
    {
      if k != id {
        assert StatusOf(st', k) == StatusOf(st, k);
      }
    }
    forall i: nat, j: nat | SharesStakingId(st', i, j)
      ensures i == j
    {
      assert StatusOf(st', i) == StatusOf(st, i);
      if j != id {
        assert StatusOf(st', j) == StatusOf(st, j);
      }
      assert SharesStakingId(st, i, j);
    }
  }
}

/** Book-keeping shared by the escrow: token balances, ownership of the
    position NFTs and the staked total. Addresses are numbers; 0 is the zero
    address and an absent key reads as 0, as storage does. */
module Accounts {
  import opened Reward

  type Addr = nat

  function Get(m: map<nat, nat>, k: nat): nat
  {
    if k in m then m[k] else 0
  }

  /** Token transfer of `value` from `from` to `to`. */
  function Transfer(bal: map<Addr, nat>, from: Addr, to: Addr, value: nat): (r: map<Addr, nat>)
    requires Get(bal, from) >= value
    ensures forall a :: a != from && a != to ==> Get(r, a) == Get(bal, a)
    ensures from != to ==> Get(r, from) == Get(bal, from) - value && Get(r, to) == Get(bal, to) + value
    ensures from == to ==> Get(r, from) == Get(bal, from)
  {
    var b := bal[from := Get(bal, from) - value];
    b[to := Get(b, to) + value]
  }

  /** Number of the ids `1..n` that `ownerOf` assigns to `a`: the NFT
      balance of `a`. */
  function NftBalance(ownerOf: map<nat, Addr>, n: nat, a: Addr): nat
  {
    if n == 0 then 0 else NftBalance(ownerOf, n - 1, a) + (if Get(ownerOf, n) == a then 1 else 0)
  }

  /** Moving id `id` (among `1..n`) to `to` takes one NFT from its old owner
      and gives one to `to`; every other account keeps its balance. */
  lemma {:induction false} NftBalanceAfterMove(ownerOf: map<nat, Addr>, n: nat, id: nat, to: Addr, a: Addr)
    requires 1 <= id <= n
    ensures NftBalance(ownerOf[id := to], n, a)
         == NftBalance(ownerOf, n, a) - (if Get(ownerOf, id) == a then 1 else 0) + (if to == a then 1 else 0)
  {
    if id < n {
      NftBalanceAfterMove(ownerOf, n - 1, id, to, a);
    } else {
      NftBalanceUnaffected(ownerOf, n - 1, id, to, a);
    }
  }

  /** Ids above `n` do not count towards the balances over `1..n`. */
  lemma {:induction false} NftBalanceUnaffected(ownerOf: map<nat, Addr>, n: nat, id: nat, to: Addr, a: Addr)
    requires id > n
    ensures NftBalance(ownerOf[id := to], n, a) == NftBalance(ownerOf, n, a)
  {
    if n > 0 {
      NftBalanceUnaffected(ownerOf, n - 1, id, to, a);
    }
  }

  /** Minting id `n + 1` to `to` gives `to` exactly one more NFT. */
  lemma NftBalanceAfterMint(ownerOf: map<nat, Addr>, n: nat, to: Addr, a: Addr)
    requires Get(ownerOf, n + 1) == 0 && to != 0
    ensures NftBalance(ownerOf[n + 1 := to], n + 1, a)
         == NftBalance(ownerOf, n, a) + (if to == a then 1 else 0)
  {
    NftBalanceUnaffected(ownerOf, n, n + 1, to, a);
  }

  /** Record of a position that was never staked. */
  const Unstaked := StakingStatus(0, 0, 0, 0, 0)

  function StatusOf(st: map<nat, StakingStatus>, id: nat): StakingStatus
  {
    if id in st then st[id] else Unstaked
  }

  /** Amount a staking record contributes to the staked total. */
  function StakedPart(s: StakingStatus): nat
  {
    if s.stakingId != 0 then s.lockAmount else 0
  }

  /** Sum of the snapshot amounts of the currently staked ids among `1..n`. */
  function StakedAmount(st: map<nat, StakingStatus>, n: nat): nat
  {
    if n == 0 then 0 else StakedAmount(st, n - 1) + StakedPart(StatusOf(st, n))
  }

  /** Rewriting the record of one id among `1..n` changes the staked total by
      the difference of its contributions. */
  lemma {:induction false} StakedAmountAfterUpdate(st: map<nat, StakingStatus>, n: nat, id: nat, s: StakingStatus)
    requires 1 <= id <= n
    ensures StakedAmount(st[id := s], n) == StakedAmount(st, n) - StakedPart(StatusOf(st, id)) + StakedPart(s)
  {
    if id < n {
      StakedAmountAfterUpdate(st, n - 1, id, s);
    } else {
      StakedAmountUnaffected(st, n - 1, id, s);
    }
  }

  lemma {:induction false} StakedAmountUnaffected(st: map<nat, StakingStatus>, n: nat, id: nat, s: StakingStatus)
    requires id > n
    ensures StakedAmount(st[id := s], n) == StakedAmount(st, n)
  {
    if n > 0 {
      StakedAmountUnaffected(st, n - 1, id, s);
    }
  }
}

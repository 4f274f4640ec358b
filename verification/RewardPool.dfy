/** The reward pot: what it holds against what is unallocated and what miners have been promised. */
module RewardPool {
  import opened Base
  import opened PerThings
  import opened MinerRewards

  const T_BYTE: nat := 1_099_511_627_776
  const BASE_LIMIT: nat := 2_000_000_000_000_000

  datatype MinerState = Positive | Frozen | Locking | Exited | Offline

  datatype MinerInfo = MinerInfo(collateral: nat, debt: nat, state: MinerState, idle: nat, service: nat)

  datatype Pool = Pool(pot: nat, unallocated: nat, rewards: map<Account, Reward>, miners: map<Account, MinerInfo>)

  function Promise(r: Reward): nat {
    Sub(r.total, r.issued)
  }

  function Promises(rewards: map<Account, Reward>): map<Account, nat> {
    map a | a in rewards :: Promise(rewards[a])
  }

  /** What the pot holds beyond the unallocated reward and everything still owed to miners. */
  ghost function Surplus(p: Pool): int {
    p.pot - p.unallocated - MapSum(Promises(p.rewards))
  }

  ghost predicate Earned(r: Reward) {
    exists rs :: Matches(r, rs)
  }

  /** Every reward record is what some rounds made it. */
  ghost predicate AllEarned(p: Pool) {
    forall a :: a in p.rewards ==> Earned(p.rewards[a])
  }

  /** The collateral a miner of some power must keep. */
  function Limit(idle: nat, service: nat): nat {
    BASE_LIMIT * (1 + Power(idle, service) / T_BYTE)
  }

  // ----- Calls

  function Deposit(p: Pool, amount: nat): Pool {
    p.(pot := p.pot + amount, unallocated := p.unallocated + amount)
  }

  function Calculate(p: Pool, who: Account, amount: nat): Option<Pool> {
    if who !in p.rewards || p.unallocated < amount then None
    else Some(p.(rewards := p.rewards[who := Award(p.rewards[who], amount)], unallocated := p.unallocated - amount))
  }

  /** The transfer out of the pot may fail for reasons of its own. */
  function Receive(p: Pool, who: Account, transferable: bool): Option<Pool> {
    if who !in p.miners then Some(p)
    else if !p.miners[who].state.Positive? || who !in p.rewards then None
    else
      var r := p.rewards[who];
      if r.available == 0 || p.pot < r.available || !transferable then None
      else Some(p.(pot := p.pot - r.available, rewards := p.rewards[who := Collect(r)]))
  }

  /** What a fine takes from the collateral. The debt is computed after the collateral is zeroed. */
  function Fined(m: MinerInfo, amount: nat): MinerInfo {
    var paid := if m.collateral > amount then m.(collateral := m.collateral - amount)
                else m.(collateral := 0, debt := amount - 0);
    if paid.collateral < Limit(m.idle, m.service) then paid.(state := Frozen) else paid
  }

  function Punish(p: Pool, who: Account, amount: nat, transferable: bool): Option<Pool> {
    if who !in p.miners || !transferable then None
    else
      var taken := Min(amount, p.miners[who].collateral);
      Some(Deposit(p, taken).(miners := p.miners[who := Fined(p.miners[who], amount)]))
  }

  /** What a miner was promised and not paid returns to the unallocated reward. */
  function GiveBack(p: Pool, who: Account): Option<Pool> {
    if who !in p.rewards then Some(p)
    else if p.rewards[who].total < p.rewards[who].issued then None
    else Some(p.(unallocated := p.unallocated + Promise(p.rewards[who]), rewards := p.rewards - {who}))
  }

  function SetState(p: Pool, who: Account, state: MinerState): Pool {
    if who in p.miners then p.(miners := p.miners[who := p.miners[who].(state := state)]) else p
  }

  /** Runs outside any transaction: the promise is given back even when the miner turns out to be gone. */
  function ForceExit(p: Pool, who: Account): Pool {
    var back := GiveBack(p, who);
    if back.None? then p else SetState(back.value, who, Offline)
  }

  function ExecuteExit(p: Pool, who: Account): Option<Pool> {
    var back := GiveBack(p, who);
    if back.None? || who !in p.miners then None else Some(SetState(back.value, who, Exited))
  }

  function Register(p: Pool, who: Account, staking: nat, reservable: bool): Option<Pool> {
    if who in p.miners || !reservable then None
    else Some(p.(miners := p.miners[who := MinerInfo(staking, 0, Positive, 0, 0)],
                 rewards := p.rewards[who := NO_REWARD]))
  }

  // ----- Runs

  datatype Event =
    | EvDeposit(amount: nat)
    | EvCalculate(who: Account, amount: nat)
    | EvReceive(who: Account, transferable: bool)
    | EvPunish(who: Account, amount: nat, transferable: bool)
    | EvForceExit(who: Account)
    | EvExecuteExit(who: Account)
    | EvRegister(who: Account, staking: nat, reservable: bool)
    | EvWithdraw(who: Account)
    | EvChange(who: Account, info: MinerInfo)

  function Step(p: Pool, e: Event): Option<Pool> {
    match e
    case EvDeposit(amount) => Some(Deposit(p, amount))
    case EvCalculate(who, amount) => Calculate(p, who, amount)
    case EvReceive(who, ok) => Receive(p, who, ok)
    case EvPunish(who, amount, ok) => Punish(p, who, amount, ok)
    case EvForceExit(who) => Some(ForceExit(p, who))
    case EvExecuteExit(who) => ExecuteExit(p, who)
    case EvRegister(who, staking, ok) => Register(p, who, staking, ok)
    case EvWithdraw(who) => if who in p.miners then Some(p.(miners := p.miners - {who})) else None
    case EvChange(who, info) => if who in p.miners then Some(p.(miners := p.miners[who := info])) else None
  }

  function Next(p: Pool, e: Event): Pool {
    if Step(p, e).Some? then Step(p, e).value else p
  }

  function Run(p: Pool, es: seq<Event>): Pool
    decreases |es|
  {
    if es == [] then p else Run(Next(p, es[0]), es[1..])
  }

  /** What a registration forgets: the open promise of a record it overwrites. */
  function Forgets(p: Pool, e: Event): nat {
    if e.EvRegister? && Step(p, e).Some? && e.who in p.rewards then Promise(p.rewards[e.who]) else 0
  }

  function Forgotten(p: Pool, es: seq<Event>): nat
    decreases |es|
  {
    if es == [] then 0 else Forgets(p, es[0]) + Forgotten(Next(p, es[0]), es[1..])
  }

  lemma EarnedCovers(r: Reward)
    requires Earned(r)
    ensures r.issued + r.available <= r.total
  {
    var rs :| Matches(r, rs);
    PromiseIsCovered(r, rs);
  }

  lemma NewRecordIsEarned()
    ensures Earned(NO_REWARD)
  {
    assert Matches(NO_REWARD, []);
  }

  lemma AwardStaysEarned(r: Reward, amount: nat)
    requires Earned(r)
    ensures Earned(Award(r, amount)) && Earned(Collect(r))
  {
    var rs :| Matches(r, rs);
    AwardMatches(r, rs, amount);
    assert Matches(Collect(r), rs);
  }

  lemma PromiseUpdate(rewards: map<Account, Reward>, who: Account, r: Reward)
    ensures MapSum(Promises(rewards[who := r]))
         == MapSum(Promises(rewards)) - (if who in rewards then Promise(rewards[who]) else 0) + Promise(r)
    ensures who in rewards ==> Promise(rewards[who]) <= MapSum(Promises(rewards))
  {
    MapSumUpdate(Promises(rewards), who, Promise(r));
    assert Promises(rewards[who := r]) == Promises(rewards)[who := Promise(r)];
  }

  lemma CalculateKeeps(p: Pool, who: Account, amount: nat)
    requires AllEarned(p) && Calculate(p, who, amount).Some?
    ensures AllEarned(Calculate(p, who, amount).value)
    ensures Surplus(Calculate(p, who, amount).value) == Surplus(p)
  {
    EarnedCovers(p.rewards[who]);
    AwardStaysEarned(p.rewards[who], amount);
    PromiseUpdate(p.rewards, who, Award(p.rewards[who], amount));
  }

  lemma ReceiveKeeps(p: Pool, who: Account, ok: bool)
    requires AllEarned(p) && Receive(p, who, ok).Some?
    ensures AllEarned(Receive(p, who, ok).value)
    ensures Surplus(Receive(p, who, ok).value) == Surplus(p)
  {
    if who in p.miners {
      EarnedCovers(p.rewards[who]);
      AwardStaysEarned(p.rewards[who], 0);
      PromiseUpdate(p.rewards, who, Collect(p.rewards[who]));
    }
  }

  lemma PromiseRemove(rewards: map<Account, Reward>, who: Account)
    requires who in rewards
    ensures MapSum(Promises(rewards - {who})) == MapSum(Promises(rewards)) - Promise(rewards[who])
  {
    MapSumRemove(Promises(rewards), who);
    assert Promises(rewards - {who}) == Promises(rewards) - {who};
  }

  lemma GiveBackKeeps(p: Pool, who: Account)
    requires AllEarned(p)
    ensures GiveBack(p, who).Some?
    ensures AllEarned(GiveBack(p, who).value) && Surplus(GiveBack(p, who).value) == Surplus(p)
    ensures who !in GiveBack(p, who).value.rewards
    ensures GiveBack(p, who).value.unallocated - p.unallocated
         == if who in p.rewards then p.rewards[who].total - p.rewards[who].issued else 0
  {
    if who in p.rewards {
      EarnedCovers(p.rewards[who]);
      PromiseRemove(p.rewards, who);
    }
  }

  lemma ExitKeeps(p: Pool, who: Account, state: MinerState)
    requires AllEarned(p)
    ensures GiveBack(p, who).Some?
    ensures AllEarned(SetState(GiveBack(p, who).value, who, state))
    ensures Surplus(SetState(GiveBack(p, who).value, who, state)) == Surplus(p)
  {
    GiveBackKeeps(p, who);
  }

  lemma RegisterKeeps(p: Pool, who: Account, staking: nat, ok: bool)
    requires AllEarned(p) && Register(p, who, staking, ok).Some?
    ensures AllEarned(Register(p, who, staking, ok).value)
    ensures Surplus(Register(p, who, staking, ok).value)
         == Surplus(p) + if who in p.rewards then Promise(p.rewards[who]) else 0
  {
    NewRecordIsEarned();
    PromiseUpdate(p.rewards, who, NO_REWARD);
  }

  lemma RewardsKept(p: Pool, e: Event)
    requires AllEarned(p) && Step(p, e).Some?
    requires e.EvDeposit? || e.EvPunish? || e.EvWithdraw? || e.EvChange?
    ensures AllEarned(Step(p, e).value) && Surplus(Step(p, e).value) == Surplus(p)
  {
    assert Step(p, e).value.rewards == p.rewards;
  }

  lemma NextKeeps(p: Pool, e: Event)
    requires AllEarned(p)
    ensures AllEarned(Next(p, e)) && Surplus(Next(p, e)) == Surplus(p) + Forgets(p, e)
  {
    if Step(p, e).Some? {
      match e
      case EvCalculate(who, amount) => CalculateKeeps(p, who, amount);
      case EvReceive(who, ok) => ReceiveKeeps(p, who, ok);
      case EvForceExit(who) => ExitKeeps(p, who, Offline);
      case EvExecuteExit(who) => ExitKeeps(p, who, Exited);
      case EvRegister(who, staking, ok) => RegisterKeeps(p, who, staking, ok);
      case _ => RewardsKept(p, e);
    }
  }

  /**
   * Solvency is conserved: over any run of deposits, rewards, receipts, fines and exits the surplus of the pot over
   * all it owes is unchanged, but for the promises that registrations overwrote.
   */
  lemma {:induction false} SurplusIsConserved(p: Pool, es: seq<Event>)
    requires AllEarned(p)
    ensures AllEarned(Run(p, es)) && Surplus(Run(p, es)) == Surplus(p) + Forgotten(p, es)
    decreases |es|
  {
    if es != [] {
      NextKeeps(p, es[0]);
      SurplusIsConserved(Next(p, es[0]), es[1..]);
    }
  }

  /** A pool that starts without promises stays solvent, so any miner's available reward is there to be paid. */
  lemma SolventPays(p: Pool, es: seq<Event>, who: Account)
    requires p.rewards == map[] && p.unallocated <= p.pot
    requires who in Run(p, es).rewards
    ensures Run(p, es).rewards[who].available <= Run(p, es).pot - Run(p, es).unallocated
    ensures Run(p, es).rewards[who].issued <= Run(p, es).rewards[who].total
  {
    assert Promises(p.rewards) == map[];
    SurplusIsConserved(p, es);
    AvailableIsInPot(Run(p, es), who);
  }

  /** In a solvent pool what a miner may receive lies in the pot, beside the unallocated reward. */
  lemma AvailableIsInPot(p: Pool, who: Account)
    requires AllEarned(p) && Surplus(p) >= 0 && who in p.rewards
    ensures p.rewards[who].available <= Promise(p.rewards[who]) <= p.pot - p.unallocated
    ensures p.rewards[who].issued <= p.rewards[who].total
  {
    EarnedCovers(p.rewards[who]);
    PromiseUpdate(p.rewards, who, p.rewards[who]);
  }

  /** A fine above the collateral records all of itself as debt: right exactly when there was no collateral to take. */
  lemma FineDebtIff(m: MinerInfo, amount: nat)
    requires m.collateral <= amount
    ensures Fined(m, amount).collateral == 0
    ensures Fined(m, amount).debt == amount - m.collateral <==> m.collateral == 0
  {
  }

  function Collaterals(miners: map<Account, MinerInfo>): map<Account, nat> {
    map a | a in miners :: miners[a].collateral
  }

  /** A fine only moves value: what leaves the collateral reaches the pot and the unallocated reward. */
  lemma FineConserves(p: Pool, who: Account, amount: nat)
    requires who in p.miners
    ensures Punish(p, who, amount, true).Some?
    ensures var p' := Punish(p, who, amount, true).value;
            && p'.pot + MapSum(Collaterals(p'.miners)) == p.pot + MapSum(Collaterals(p.miners))
            && p'.pot - p.pot == p'.unallocated - p.unallocated == Min(amount, p.miners[who].collateral)
            && who in p'.miners && p'.miners[who].collateral == Sub(p.miners[who].collateral, amount)
            && p'.miners - {who} == p.miners - {who} && p'.rewards == p.rewards
  {
    var p' := Punish(p, who, amount, true).value;
    MapSumUpdate(Collaterals(p.miners), who, p'.miners[who].collateral);
    assert Collaterals(p'.miners) == Collaterals(p.miners)[who := p'.miners[who].collateral];
  }

  /** A fined miner is frozen exactly when its collateral ends below the limit for its power. */
  lemma FineFreezesIff(m: MinerInfo, amount: nat)
    requires m.state != Frozen
    ensures Fined(m, amount).state == Frozen <==> Sub(m.collateral, amount) < Limit(m.idle, m.service)
    ensures Fined(m, amount).state != Frozen ==> Fined(m, amount).state == m.state
    ensures Fined(m, amount).idle == m.idle && Fined(m, amount).service == m.service
  {
  }

  /** The limit is 2000 units for a power below one tebibyte, and as much again for every further one begun. */
  lemma LimitSteps(idle: nat, service: nat, k: nat)
    requires k * 1_099_511_627_776 <= Power(idle, service) < (k + 1) * 1_099_511_627_776
    ensures Limit(idle, service) == (k + 1) * 2_000_000_000_000_000
  {
    var power := Power(idle, service);
    DivUnique(power, k, power - k * 1_099_511_627_776, 1_099_511_627_776);
  }

  /** Two calls show it: a miner registers with some collateral and is fined at least as much. */
  lemma FineCanOverbill(p: Pool, who: Account, staking: nat, amount: nat)
    requires who !in p.miners && 0 < staking <= amount
    ensures var r := Run(p, [EvRegister(who, staking, true), EvPunish(who, amount, true)]);
            && who in r.miners && r.miners[who].collateral == 0 && r.pot == p.pot + staking
            && r.miners[who].debt == amount > amount - staking
  {
    var es := [EvRegister(who, staking, true), EvPunish(who, amount, true)];
    assert es[1..] == [EvPunish(who, amount, true)] && es[1..][1..] == [];
    var s := Next(p, es[0]);
    assert s.miners[who] == MinerInfo(staking, 0, Positive, 0, 0);
    assert Run(s, es[1..]) == Next(s, es[1]);
  }

  // ----- One round over a run of the pool

  /** A snapshot and the accounts it lists. */
  datatype Round = Round(reward: nat, snaps: seq<Snap>, miners: seq<Account>) {
    predicate Valid() {
      && |miners| == |snaps|
      && (Power(TotalIdle(snaps), TotalService(snaps)) > 0 || |snaps| <= 1 || reward == 0)
    }

    function Amount(i: nat): nat
      requires i < |snaps|
    {
      RoundReward(reward, TotalIdle(snaps), TotalService(snaps), snaps[i])
    }

    function Paid(paid: seq<bool>): nat
      requires |paid| == |snaps|
    {
      PaidSum(reward, TotalIdle(snaps), TotalService(snaps), snaps, paid)
    }
  }

  /** Every reward calculated in the run is that of a listed miner, each at most once; anything else may happen. */
  ghost predicate OfRound(m: Round, es: seq<Event>, paid: seq<bool>)
    requires m.Valid() && |paid| == |m.snaps|
    decreases |es|
  {
    es == [] ||
    if es[0].EvCalculate?
    then exists i :: && 0 <= i < |m.snaps| && !paid[i] && m.miners[i] == es[0].who && m.Amount(i) == es[0].amount
                     && OfRound(m, es[1..], paid[i := true])
    else OfRound(m, es[1..], paid)
  }

  /** Only a reward lowers what is unallocated. */
  lemma OthersOnlyAdd(p: Pool, e: Event)
    requires !e.EvCalculate?
    ensures Next(p, e).unallocated >= p.unallocated
  {
  }

  /**
   * The pool covers a round over any run: with the snapshot's reward unallocated when it starts, and whatever is
   * deposited, paid, fined and registered meanwhile, no miner's reward is ever refused for lack of unallocated reward.
   */
  lemma {:induction false} RoundIsCovered(p: Pool, es: seq<Event>, m: Round, paid: seq<bool>)
    requires m.Valid() && |paid| == |m.snaps| && OfRound(m, es, paid)
    requires m.reward <= p.unallocated + m.Paid(paid)
    ensures forall k :: 0 <= k < |es| && es[k].EvCalculate? ==> es[k].amount <= Run(p, es[..k]).unallocated
    decreases |es|
  {
    if es != [] {
      var next := Next(p, es[0]);
      if es[0].EvCalculate? {
        var i :| && 0 <= i < |m.snaps| && !paid[i] && m.miners[i] == es[0].who && m.Amount(i) == es[0].amount
                 && OfRound(m, es[1..], paid[i := true]);
        PoolCoversRound(m.reward, m.snaps, paid, i);
        PaidUpdate(m.reward, TotalIdle(m.snaps), TotalService(m.snaps), m.snaps, paid, i);
        RoundIsCovered(next, es[1..], m, paid[i := true]);
      } else {
        OthersOnlyAdd(p, es[0]);
        RoundIsCovered(next, es[1..], m, paid);
      }
      forall k | 0 <= k < |es| && es[k].EvCalculate? ensures es[k].amount <= Run(p, es[..k]).unallocated {
        if k == 0 {
          assert es[..0] == [];
        } else {
          assert es[..k][1..] == es[1..][..k - 1] && es[1..][k - 1] == es[k];
        }
      }
    }
  }

  /** Walks the order list, releasing one share of each order that has some left. */
  method ReleaseShares(list: seq<Order>) returns (orders: seq<Order>, released: nat)
    ensures orders == Tick(list) && released == Ticked(list)
  {
    orders, released := list, 0;
    for i := 0 to |orders|
      invariant |orders| == |list|
      invariant orders[..i] + Tick(orders[i..]) == Tick(list)
      invariant released + Ticked(orders[i..]) == Ticked(list)
    {
      TickStep(orders, i);
      if orders[i].count != RELEASE_NUMBER {
        released := released + orders[i].share;
        orders := orders[i := orders[i].(count := orders[i].count + 1)];
      }
    }
    assert orders[..|orders|] + [] == orders;
  }

  /** Releases one share of each open order, drops the oldest of 180 and adds this round's order. */
  method AddOrder(reward: Reward, amount: nat) returns (r: Reward)
    ensures r == Award(reward, amount)
  {
    var share := MulFloor(EACH_SHARE_MUTI, amount) / RELEASE_NUMBER;
    var issued := MulFloor(ISSUE_MUTI, amount);
    var orders, released := ReleaseShares(reward.orders);
    if |orders| == RELEASE_NUMBER {
      orders := orders[1..];
    }
    var available := reward.available + released + issued + share;
    r := Reward(reward.total + amount, reward.issued, available, orders + [Order(amount, share, 1)]);
  }

  // ----- The storage items, updated in place

  /** Every method keeps the pool solvent and says how its surplus moves. */
  class Sminer {
    var pool: Pool

    ghost predicate Valid()
      reads this
    {
      AllEarned(pool) && Surplus(pool) >= 0
    }

    constructor (pot: nat, unallocated: nat)
      requires unallocated <= pot
      ensures Valid() && pool == Pool(pot, unallocated, map[], map[])
    {
      pool := Pool(pot, unallocated, map[], map[]);
      assert Promises(map[]) == map[];
    }

    /** Adds the miner's share of the round to its schedule and takes it off the unallocated reward. */
    method CalculateMinerReward(who: Account, totalReward: nat, totalIdle: nat, totalService: nat, m: Snap)
      returns (ok: bool)
      requires Valid()
      modifies this
      ensures Valid() && Surplus(pool) == old(Surplus(pool))
      ensures var amount := RoundReward(totalReward, totalIdle, totalService, m);
              && ok == (who in old(pool).rewards && amount <= old(pool).unallocated)
              && pool == if ok then Calculate(old(pool), who, amount).value else old(pool)
    {
      var totalPower := Power(totalIdle, totalService);
      var minerPower := Power(m.idle, m.service);
      var amount := MulFloor(FromRational(minerPower, totalPower), totalReward);
      if who !in pool.rewards || pool.unallocated < amount {
        return false;
      }
      CalculateKeeps(pool, who, amount);
      var reward := AddOrder(pool.rewards[who], amount);
      pool := pool.(rewards := pool.rewards[who := reward], unallocated := pool.unallocated - amount);
      return true;
    }

    /** The pot always covers the available reward, so a receipt fails only for the miner's state or the currency's. */
    method ReceiveReward(who: Account, transferable: bool) returns (ok: bool)
      requires Valid()
      modifies this
      ensures Valid() && Surplus(pool) == old(Surplus(pool))
      ensures ok <==> who in old(pool).miners ==>
                && old(pool).miners[who].state.Positive? && transferable
                && who in old(pool).rewards && old(pool).rewards[who].available > 0
      ensures pool == Next(old(pool), EvReceive(who, transferable))
      ensures old(pool).pot - pool.pot == if ok && who in old(pool).miners then old(pool).rewards[who].available else 0
    {
      if who !in pool.miners {
        return true;
      }
      if !pool.miners[who].state.Positive? || who !in pool.rewards {
        return false;
      }
      if pool.rewards[who].available == 0 || !transferable {
        return false;
      }
      AvailableIsInPot(pool, who);
      ReceiveKeeps(pool, who, transferable);
      Pay(who);
      return true;
    }

    /** Transfers the available reward and marks it issued. */
    method Pay(who: Account)
      requires who in pool.rewards && pool.rewards[who].available <= pool.pot
      modifies this
      ensures pool == old(pool).(pot := old(pool).pot - old(pool).rewards[who].available,
                                 rewards := old(pool).rewards[who := Collect(old(pool).rewards[who])])
    {
      var reward := pool.rewards[who];
      pool := pool.(pot := pool.pot - reward.available);
      reward := reward.(issued := reward.issued + reward.available);
      reward := reward.(available := 0);
      pool := pool.(rewards := pool.rewards[who := reward]);
    }

    /** Gives a miner's open promise back. The subtraction never fails: no record has issued more than its total. */
    method ReturnPromise(who: Account)
      requires Valid()
      modifies this
      ensures Valid() && Surplus(pool) == old(Surplus(pool))
      ensures GiveBack(old(pool), who) == Some(pool) && who !in pool.rewards
      ensures pool.unallocated - old(pool).unallocated
           == if who in old(pool).rewards then old(pool).rewards[who].total - old(pool).rewards[who].issued else 0
    {
      GiveBackKeeps(pool, who);
      RemoveReward(who);
    }

    /** Returns what a record has not issued and removes the record. */
    method RemoveReward(who: Account)
      requires who in pool.rewards ==> pool.rewards[who].issued <= pool.rewards[who].total
      modifies this
      ensures GiveBack(old(pool), who) == Some(pool)
    {
      if who in pool.rewards {
        var reward := pool.rewards[who];
        pool := pool.(unallocated := pool.unallocated + (reward.total - reward.issued));
        pool := pool.(rewards := pool.rewards - {who});
      }
    }

    /** Not rolled back: the promise returns even when the miner turns out to be gone. */
    method ForceMinerExit(who: Account) returns (ok: bool)
      requires Valid()
      modifies this
      ensures Valid() && Surplus(pool) == old(Surplus(pool))
      ensures pool == Next(old(pool), EvForceExit(who)) && who !in pool.rewards
      ensures ok <==> who in old(pool).miners
      ensures ok ==> who in pool.miners && pool.miners[who].state == Offline
    {
      ReturnPromise(who);
      if who !in pool.miners {
        return false;
      }
      pool := pool.(miners := pool.miners[who := pool.miners[who].(state := Offline)]);
      return true;
    }

    /** A miner in good standing leaves; only an unknown one is refused, and the caller then rolls back. */
    method ExecuteMinerExit(who: Account) returns (ok: bool)
      requires Valid()
      modifies this
      ensures Valid() && Surplus(pool) == old(Surplus(pool))
      ensures ok <==> who in old(pool).miners
      ensures ok ==> pool == Next(old(pool), EvExecuteExit(who)) && who !in pool.rewards
      ensures ok ==> who in pool.miners && pool.miners[who].state == Exited
      ensures !ok ==> Next(old(pool), EvExecuteExit(who)) == old(pool)
    {
      ReturnPromise(who);
      if who !in pool.miners {
        return false;
      }
      pool := pool.(miners := pool.miners[who := pool.miners[who].(state := Exited)]);
      return true;
    }

    /** Starts a miner's reward record afresh: what an earlier record still promised becomes surplus. */
    method RegisterMiner(who: Account, staking: nat, reservable: bool) returns (ok: bool)
      requires Valid()
      modifies this
      ensures Valid() && Surplus(pool) == old(Surplus(pool)) + old(Forgets(pool, EvRegister(who, staking, reservable)))
      ensures ok <==> who !in old(pool).miners && reservable
      ensures pool == Next(old(pool), EvRegister(who, staking, reservable))
    {
      if who in pool.miners || !reservable {
        return false;
      }
      NextKeeps(pool, EvRegister(who, staking, reservable));
      AddMiner(who, staking);
      return true;
    }

    method AddMiner(who: Account, staking: nat)
      requires who !in pool.miners
      modifies this
      ensures Register(old(pool), who, staking, true) == Some(pool)
    {
      pool := pool.(miners := pool.miners[who := MinerInfo(staking, 0, Positive, 0, 0)]);
      pool := pool.(rewards := pool.rewards[who := Reward(0, 0, 0, [])]);
    }

    /** A fine moves from the collateral to the pot and the unallocated reward, so the surplus stays. */
    method DepositPunish(who: Account, amount: nat, transferable: bool) returns (ok: bool)
      requires Valid()
      modifies this
      ensures Valid() && Surplus(pool) == old(Surplus(pool))
      ensures ok <==> who in old(pool).miners && transferable
      ensures pool == Next(old(pool), EvPunish(who, amount, transferable))
    {
      if who !in pool.miners || !transferable {
        return false;
      }
      NextKeeps(pool, EvPunish(who, amount, transferable));
      TakeFine(who, amount);
      return true;
    }

    /** The fine leaves the collateral; what the collateral lacks is recorded only after it has been zeroed. */
    method TakeFine(who: Account, amount: nat)
      requires who in pool.miners
      modifies this
      ensures Punish(old(pool), who, amount, true) == Some(pool)
    {
      var m := pool.miners[who];
      if m.collateral > amount {
        pool := pool.(pot := pool.pot + amount, unallocated := pool.unallocated + amount);
        m := m.(collateral := m.collateral - amount);
      } else {
        pool := pool.(pot := pool.pot + m.collateral, unallocated := pool.unallocated + m.collateral);
        m := m.(collateral := 0);
        m := m.(debt := amount - m.collateral);
      }
      if m.collateral < Limit(m.idle, m.service) {
        m := m.(state := Frozen);
      }
      pool := pool.(miners := pool.miners[who := m]);
    }
  }

  lemma TickStep(orders: seq<Order>, i: nat)
    requires i < |orders|
    ensures var o := orders[i];
            var o' := if o.count == RELEASE_NUMBER then o else o.(count := o.count + 1);
            var next := orders[i := o'];
            && orders[..i] + Tick(orders[i..]) == next[..i + 1] + Tick(next[i + 1..])
            && Ticked(orders[i..]) == (if o.count == RELEASE_NUMBER then 0 else o.share) + Ticked(next[i + 1..])
            && next[i + 1..] == orders[i + 1..]
  {
    var o := orders[i];
    var o' := if o.count == RELEASE_NUMBER then o else o.(count := o.count + 1);
    var next := orders[i := o'];
    assert orders[i..][1..] == orders[i + 1..] == next[i + 1..];
    assert next[..i + 1] == orders[..i] + [o'];
    assert orders[..i] + ([o'] + Tick(orders[i + 1..])) == orders[..i] + [o'] + Tick(orders[i + 1..]);
  }
}

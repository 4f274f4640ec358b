/**
 * Miner rewards: each round's order pays a fifth at once and the rest in 180 shares, from a pool that must
 * stay solvent.
 */
module MinerRewards {
  import opened Base
  import opened PerThings

  const RELEASE_NUMBER: nat := 180
  const ISSUE_MUTI: Perbill := Percent(20)
  const EACH_SHARE_MUTI: Perbill := Percent(80)
  const IDLE_MUTI: Perbill := Percent(30)
  const SERVICE_MUTI: Perbill := Percent(70)

  // ----- One miner's release schedule

  datatype Order = Order(reward: nat, share: nat, count: nat)

  datatype Reward = Reward(total: nat, issued: nat, available: nat, orders: seq<Order>)

  const NO_REWARD := Reward(0, 0, 0, [])

  /** The part of a round's reward paid at once. */
  function Issue(amount: nat): nat {
    MulFloor(ISSUE_MUTI, amount)
  }

  /** One of the 180 shares of the rest. */
  function Share(amount: nat): nat {
    MulFloor(EACH_SHARE_MUTI, amount) / RELEASE_NUMBER
  }

  /** One more share of every order that has not paid all of them. */
  function Tick(orders: seq<Order>): seq<Order> {
    if orders == [] then []
    else
      var o := orders[0];
      [if o.count == RELEASE_NUMBER then o else o.(count := o.count + 1)] + Tick(orders[1..])
  }

  function Ticked(orders: seq<Order>): nat {
    if orders == [] then 0
    else (if orders[0].count == RELEASE_NUMBER then 0 else orders[0].share) + Ticked(orders[1..])
  }

  /** A round: the old orders each release a share, the oldest makes room when there are 180, the new one is added. */
  function Award(r: Reward, amount: nat): Reward {
    var ticked := Tick(r.orders);
    var kept := if |ticked| == RELEASE_NUMBER then ticked[1..] else ticked;
    Reward(r.total + amount,
           r.issued,
           r.available + Ticked(r.orders) + Issue(amount) + Share(amount),
           kept + [Order(amount, Share(amount), 1)])
  }

  function Collect(r: Reward): Reward {
    r.(issued := r.issued + r.available, available := 0)
  }

  /** What the order of round `i` has released after `n` rounds. */
  function ReleasedBy(amount: nat, i: nat, n: nat): nat
    requires i <= n
  {
    Issue(amount) + Share(amount) * Min(RELEASE_NUMBER, n - i)
  }

  /** What the first `k` of `n` rounds have released. */
  function Released(rs: seq<nat>, k: nat, n: nat): nat
    requires k <= |rs| <= n
  {
    if k == 0 then 0 else Released(rs, k - 1, n) + ReleasedBy(rs[k - 1], k - 1, n)
  }

  /** The order list after the rounds `rs`: the last 180 of them, order `i` of `L` having paid `L - i` shares. */
  function OrdersOf(rs: seq<nat>): (orders: seq<Order>)
    ensures |orders| == Min(RELEASE_NUMBER, |rs|)
  {
    var n := Min(RELEASE_NUMBER, |rs|);
    seq(n, i requires 0 <= i < n => Order(rs[|rs| - n + i], Share(rs[|rs| - n + i]), n - i))
  }

  /** The record is what the rounds `rs` make it. */
  predicate Matches(r: Reward, rs: seq<nat>) {
    && r.total == Sum(rs)
    && r.orders == OrdersOf(rs)
    && r.issued + r.available == Released(rs, |rs|, |rs|)
  }

  lemma {:induction false} TickAt(orders: seq<Order>)
    ensures |Tick(orders)| == |orders|
    ensures forall i :: 0 <= i < |orders| ==>
              var o := orders[i];
              Tick(orders)[i] == if o.count == RELEASE_NUMBER then o else o.(count := o.count + 1)
  {
    if orders != [] {
      TickAt(orders[1..]);
    }
  }

  lemma OrdersAfterRound(rs: seq<nat>, amount: nat)
    ensures var ticked := Tick(OrdersOf(rs));
            var kept := if |ticked| == RELEASE_NUMBER then ticked[1..] else ticked;
            kept + [Order(amount, Share(amount), 1)] == OrdersOf(rs + [amount])
  {
    TickAt(OrdersOf(rs));
  }

  /** The shares released in a round are those of the last 179 rounds. */
  function SharesFrom(rs: seq<nat>, from: nat): nat
    requires from <= |rs|
    decreases |rs| - from
  {
    if from == |rs| then 0 else Share(rs[from]) + SharesFrom(rs, from + 1)
  }

  lemma {:induction false} TickedFrom(rs: seq<nat>, orders: seq<Order>, from: nat)
    requires from <= |rs| && |orders| == |rs| - from <= RELEASE_NUMBER
    requires forall i :: 0 <= i < |orders| ==> orders[i].share == Share(rs[from + i]) && orders[i].count == |orders| - i
    ensures Ticked(orders) == if |orders| == RELEASE_NUMBER then SharesFrom(rs, from + 1) else SharesFrom(rs, from)
    decreases |orders|
  {
    if orders != [] {
      TickedFrom(rs, orders[1..], from + 1);
    }
  }

  lemma ReleasedByStep(amount: nat, i: nat, n: nat)
    requires i <= n
    ensures ReleasedBy(amount, i, n + 1)
         == ReleasedBy(amount, i, n) + if n - i < RELEASE_NUMBER then Share(amount) else 0
  {
    var x := Share(amount);
    assert x * (Min(RELEASE_NUMBER, n - i) + 1) == x * Min(RELEASE_NUMBER, n - i) + x;
  }

  /** One round later, every order younger than 180 rounds has released one more share. */
  lemma {:induction false} ReleasedStep(rs: seq<nat>, k: nat)
    requires k <= |rs|
    ensures var n := |rs|;
            var young := if n < RELEASE_NUMBER then 0 else n - RELEASE_NUMBER + 1;
            Released(rs, k, n + 1) + (if young <= k then SharesFrom(rs, k) else SharesFrom(rs, young))
            == Released(rs, k, n) + SharesFrom(rs, young)
  {
    if k > 0 {
      ReleasedStep(rs, k - 1);
      ReleasedByStep(rs[k - 1], k - 1, |rs|);
    }
  }

  lemma {:induction false} ReleasedPrefix(rs: seq<nat>, amount: nat, k: nat, n: nat)
    requires k <= |rs| < n
    ensures Released(rs + [amount], k, n) == Released(rs, k, n)
  {
    if k > 0 {
      ReleasedPrefix(rs, amount, k - 1, n);
    }
  }

  lemma AwardMatches(r: Reward, rs: seq<nat>, amount: nat)
    requires Matches(r, rs)
    ensures Matches(Award(r, amount), rs + [amount])
  {
    var n := |rs|;
    OrdersAfterRound(rs, amount);
    SumAppend(rs, [amount]);
    TickedFrom(rs, r.orders, n - |r.orders|);
    ReleasedStep(rs, n);
    ReleasedPrefix(rs, amount, n, n + 1);
    assert Share(amount) * 1 == Share(amount);
  }

  lemma CollectMatches(r: Reward, rs: seq<nat>)
    requires Matches(r, rs)
    ensures Matches(Collect(r), rs)
  {
  }

  /** A fifth is paid at once, and each of 180 shares is a two hundred and twenty-fifth, all rounded down. */
  lemma OrderIsSplit(amount: nat)
    ensures RELEASE_NUMBER == 180
    ensures 5 * Issue(amount) <= amount < 5 * Issue(amount) + 5
    ensures 225 * Share(amount) <= amount < 225 * Share(amount) + 225
  {
  }

  /** A fifth and 180 shares never exceed the whole. */
  lemma OrderIsCovered(amount: nat, k: nat)
    requires k <= RELEASE_NUMBER
    ensures Issue(amount) + Share(amount) * k <= amount
  {
    MulMonotone(Share(amount), k, Share(amount), RELEASE_NUMBER);
  }

  lemma {:induction false} ReleasedIsCovered(rs: seq<nat>, k: nat, n: nat)
    requires k <= |rs| <= n
    ensures Released(rs, k, n) <= Sum(rs[..k])
  {
    if k > 0 {
      ReleasedIsCovered(rs, k - 1, n);
      OrderIsCovered(rs[k - 1], Min(RELEASE_NUMBER, n - (k - 1)));
      SumStep(rs, k - 1);
    }
  }

  /** The promise covers what is paid and payable, so the difference at exit never underflows. */
  lemma PromiseIsCovered(r: Reward, rs: seq<nat>)
    requires Matches(r, rs)
    ensures r.issued + r.available <= r.total
  {
    ReleasedIsCovered(rs, |rs|, |rs|);
    assert rs[..|rs|] == rs;
  }

  /** Rounds and receipts, in any order. */
  datatype Turn = Round(amount: nat) | Receipt

  function Rewarded(r: Reward, turns: seq<Turn>): Reward
    decreases |turns|
  {
    if turns == [] then r
    else Rewarded(if turns[0].Round? then Award(r, turns[0].amount) else Collect(r), turns[1..])
  }

  function Amounts(turns: seq<Turn>): seq<nat> {
    if turns == [] then [] else (if turns[0].Round? then [turns[0].amount] else []) + Amounts(turns[1..])
  }

  /**
   * The release schedule: after any rounds and receipts, order `i` of the list has paid `L - i` shares, so one that
   * was evicted had paid all 180; and what was paid or is payable is, round by round, a fifth plus one share for each
   * round since, up to 180.
   */
  lemma {:induction false} ReleaseSchedule(r: Reward, rs: seq<nat>, turns: seq<Turn>)
    requires Matches(r, rs)
    ensures Matches(Rewarded(r, turns), rs + Amounts(turns))
    decreases |turns|
  {
    if turns == [] {
      assert rs + [] == rs;
    } else if turns[0].Round? {
      var amount := turns[0].amount;
      AwardMatches(r, rs, amount);
      ReleaseSchedule(Award(r, amount), rs + [amount], turns[1..]);
      assert rs + [amount] + Amounts(turns[1..]) == rs + Amounts(turns);
    } else {
      CollectMatches(r, rs);
      ReleaseSchedule(Collect(r), rs, turns[1..]);
      assert Amounts(turns) == Amounts(turns[1..]);
    }
  }

  // ----- One round over all miners of a snapshot

  datatype Snap = Snap(idle: nat, service: nat)

  function Power(idle: nat, service: nat): nat {
    MulFloor(IDLE_MUTI, idle) + MulFloor(SERVICE_MUTI, service)
  }

  /** Idle space counts for three tenths and service space for seven, each rounded down. */
  lemma PowerIsWeighted(idle: nat, service: nat)
    ensures 10 * Power(idle, service) <= 3 * idle + 7 * service < 10 * Power(idle, service) + 20
  {
  }

  function TotalIdle(snaps: seq<Snap>): nat {
    if snaps == [] then 0 else snaps[0].idle + TotalIdle(snaps[1..])
  }

  function TotalService(snaps: seq<Snap>): nat {
    if snaps == [] then 0 else snaps[0].service + TotalService(snaps[1..])
  }

  /** The reward of one miner in a round. */
  function RoundReward(reward: nat, totalIdle: nat, totalService: nat, m: Snap): nat {
    MulFloor(FromRational(Power(m.idle, m.service), Power(totalIdle, totalService)), reward)
  }

  function RoundSum(reward: nat, totalIdle: nat, totalService: nat, snaps: seq<Snap>): nat {
    if snaps == [] then 0
    else RoundReward(reward, totalIdle, totalService, snaps[0]) + RoundSum(reward, totalIdle, totalService, snaps[1..])
  }

  /**
   * A miner's reward is its share of the power, rounded down twice: at most that share, and less than it by under one
   * unit and a billionth of the reward.
   */
  lemma RewardIsTheShare(reward: nat, totalIdle: nat, totalService: nat, m: Snap)
    requires 0 < Power(totalIdle, totalService) && Power(m.idle, m.service) <= Power(totalIdle, totalService)
    ensures var power, total := Power(m.idle, m.service), Power(totalIdle, totalService);
            var r := RoundReward(reward, totalIdle, totalService, m);
            && r * total <= power * reward
            && power * reward * BILLION < total * ((r + 1) * BILLION + reward)
  {
    var power, total := Power(m.idle, m.service), Power(totalIdle, totalService);
    ShareOfReward(reward, power, total);
  }

  lemma ShareOfReward(reward: nat, power: nat, total: nat)
    requires 0 < total && power <= total
    ensures var r := MulFloor(FromRational(power, total), reward);
            && r * total <= power * reward
            && power * reward * BILLION < total * ((r + 1) * BILLION + reward)
  {
    var q := FromRational(power, total);
    var r := MulFloor(q, reward);
    FromRationalAtMost(power, total);
    FromRationalAbove(power, total);
    MulFloorAtMost(q, reward);
    MulFloorAbove(q, reward);
    ShareAtMost(reward, power, total, q, r);
    ShareAbove(reward, power, total, q, r);
  }

  lemma ShareAtMost(reward: nat, power: nat, total: nat, q: nat, r: nat)
    requires q * total <= power * BILLION && r * BILLION <= q * reward
    ensures r * total <= power * reward
  {
    MulMonotone(r * BILLION, total, q * reward, total);
    MulMonotone(q * total, reward, power * BILLION, reward);
    assert r * BILLION * total == (r * total) * BILLION;
    assert q * reward * total == q * total * reward;
    assert power * BILLION * reward == (power * reward) * BILLION;
  }

  lemma ShareAbove(reward: nat, power: nat, total: nat, q: nat, r: nat)
    requires 0 < total && power * BILLION < (q + 1) * total && q * reward < (r + 1) * BILLION
    ensures power * reward * BILLION < total * ((r + 1) * BILLION + reward)
  {
    MulMonotone(power * BILLION, reward, (q + 1) * total, reward);
    assert power * reward * BILLION == power * BILLION * reward;
    assert (q + 1) * total * reward == total * (q * reward + reward);
    assert total * (q * reward + reward) < total * ((r + 1) * BILLION + reward);
  }

  function PowerSum(snaps: seq<Snap>): nat {
    if snaps == [] then 0 else Power(snaps[0].idle, snaps[0].service) + PowerSum(snaps[1..])
  }

  lemma {:induction false} PowersFit(snaps: seq<Snap>)
    ensures PowerSum(snaps) <= Power(TotalIdle(snaps), TotalService(snaps))
  {
    if snaps != [] {
      PowersFit(snaps[1..]);
      MulFloorAdds(IDLE_MUTI, snaps[0].idle, TotalIdle(snaps[1..]));
      MulFloorAdds(SERVICE_MUTI, snaps[0].service, TotalService(snaps[1..]));
    }
  }

  function PropSum(snaps: seq<Snap>, total: nat): nat {
    if snaps == [] then 0 else FromRational(Power(snaps[0].idle, snaps[0].service), total) + PropSum(snaps[1..], total)
  }

  /** Down-rounded proportions of a total add up to at most their sum's proportion. */
  lemma {:induction false} PropsFit(snaps: seq<Snap>, total: nat)
    requires total > 0 && PowerSum(snaps) <= total
    ensures PropSum(snaps, total) * total <= PowerSum(snaps) * BILLION
  {
    if snaps != [] {
      PropsFit(snaps[1..], total);
      var p := Power(snaps[0].idle, snaps[0].service);
      FromRationalAtMost(p, total);
      MulDistributes(FromRational(p, total), PropSum(snaps[1..], total), total);
    }
  }

  lemma {:induction false} RewardsFit(reward: nat, totalIdle: nat, totalService: nat, snaps: seq<Snap>)
    ensures RoundSum(reward, totalIdle, totalService, snaps) * BILLION
         <= PropSum(snaps, Power(totalIdle, totalService)) * reward
  {
    if snaps != [] {
      RewardsFit(reward, totalIdle, totalService, snaps[1..]);
      var q := FromRational(Power(snaps[0].idle, snaps[0].service), Power(totalIdle, totalService));
      MulFloorAtMost(q, reward);
      MulDistributes(q, PropSum(snaps[1..], Power(totalIdle, totalService)), reward);
    }
  }

  /** A snapshot without power grants every miner the whole reward. */
  lemma {:induction false} PowerlessRound(reward: nat, totalIdle: nat, totalService: nat, snaps: seq<Snap>)
    requires Power(totalIdle, totalService) == 0
    ensures RoundSum(reward, totalIdle, totalService, snaps) == |snaps| * reward
  {
    if snaps != [] {
      PowerlessRound(reward, totalIdle, totalService, snaps[1..]);
      assert MulFloor(BILLION, reward) == reward;
      assert |snaps| * reward == reward + |snaps[1..]| * reward;
    }
  }

  /**
   * A round over-promises exactly when the snapshot has no power at all, more than one miner and something to give:
   * otherwise the rewards of all its miners together stay within the snapshot's reward, through all roundings.
   */
  lemma RoundFitsIff(reward: nat, snaps: seq<Snap>)
    ensures RoundSum(reward, TotalIdle(snaps), TotalService(snaps), snaps) <= reward
       <==> Power(TotalIdle(snaps), TotalService(snaps)) > 0 || |snaps| <= 1 || reward == 0
  {
    var total := Power(TotalIdle(snaps), TotalService(snaps));
    if total == 0 {
      PowerlessRound(reward, TotalIdle(snaps), TotalService(snaps), snaps);
      if |snaps| > 1 && reward > 0 {
        MulMonotone(2, reward, |snaps|, reward);
      } else {
        MulMonotone(|snaps|, reward, if reward == 0 then |snaps| else 1, reward);
      }
    } else {
      PowersFit(snaps);
      PropsFit(snaps, total);
      var props := PropSum(snaps, total);
      MulMonotone(PowerSum(snaps), BILLION, total, BILLION);
      if props > BILLION {
        MulMonotone(BILLION + 1, total, props, total);
      }
      RewardsFit(reward, TotalIdle(snaps), TotalService(snaps), snaps);
      MulMonotone(props, reward, BILLION, reward);
    }
  }

  /** The rewards of the miners already verified. */
  function PaidSum(reward: nat, totalIdle: nat, totalService: nat, snaps: seq<Snap>, paid: seq<bool>): nat
    requires |paid| == |snaps|
  {
    if snaps == [] then 0
    else (if paid[0] then RoundReward(reward, totalIdle, totalService, snaps[0]) else 0)
         + PaidSum(reward, totalIdle, totalService, snaps[1..], paid[1..])
  }

  lemma {:induction false} PaidWithinRound(reward: nat, totalIdle: nat, totalService: nat, snaps: seq<Snap>,
                                           paid: seq<bool>, i: nat)
    requires |paid| == |snaps| && i < |snaps| && !paid[i]
    ensures PaidSum(reward, totalIdle, totalService, snaps, paid)
            + RoundReward(reward, totalIdle, totalService, snaps[i]) <= RoundSum(reward, totalIdle, totalService, snaps)
  {
    if i == 0 {
      PaidAtMost(reward, totalIdle, totalService, snaps[1..], paid[1..]);
    } else {
      PaidWithinRound(reward, totalIdle, totalService, snaps[1..], paid[1..], i - 1);
    }
  }

  lemma {:induction false} PaidAtMost(reward: nat, totalIdle: nat, totalService: nat, snaps: seq<Snap>, paid: seq<bool>)
    requires |paid| == |snaps|
    ensures PaidSum(reward, totalIdle, totalService, snaps, paid) <= RoundSum(reward, totalIdle, totalService, snaps)
  {
    if snaps != [] {
      PaidAtMost(reward, totalIdle, totalService, snaps[1..], paid[1..]);
    }
  }

  lemma {:induction false} PaidUpdate(reward: nat, totalIdle: nat, totalService: nat, snaps: seq<Snap>,
                                      paid: seq<bool>, i: nat)
    requires |paid| == |snaps| && i < |snaps| && !paid[i]
    ensures PaidSum(reward, totalIdle, totalService, snaps, paid[i := true])
         == PaidSum(reward, totalIdle, totalService, snaps, paid)
            + RoundReward(reward, totalIdle, totalService, snaps[i])
  {
    if i == 0 {
      assert paid[0 := true][1..] == paid[1..];
    } else {
      assert paid[i := true][1..] == paid[1..][i - 1 := true];
      PaidUpdate(reward, totalIdle, totalService, snaps[1..], paid[1..], i - 1);
    }
  }

  /** The pool covers the round: whichever miners were paid, the next unpaid one's reward is still there. */
  lemma PoolCoversRound(reward: nat, snaps: seq<Snap>, paid: seq<bool>, i: nat)
    requires |paid| == |snaps| && i < |snaps| && !paid[i]
    requires Power(TotalIdle(snaps), TotalService(snaps)) > 0 || |snaps| <= 1 || reward == 0
    ensures var idle, service := TotalIdle(snaps), TotalService(snaps);
            PaidSum(reward, idle, service, snaps, paid) + RoundReward(reward, idle, service, snaps[i]) <= reward
  {
    RoundFitsIff(reward, snaps);
    PaidWithinRound(reward, TotalIdle(snaps), TotalService(snaps), snaps, paid, i);
  }

  lemma WholeSpaceHasPower(idle: nat, service: nat)
    requires Whole(idle) && Whole(service) && (idle > 0 || service > 0)
    ensures Power(idle, service) > 0
  {
    assert idle > 0 ==> idle >= 8_388_608;
    assert service > 0 ==> service >= 8_388_608;
  }

  datatype MinerView = MinerView(locked: bool, idle: nat, service: nat)

  /** The snapshot of the miners drawn for a challenge, with its totals: locked and empty miners are left out. */
  method TakeSnapshot(drawn: seq<MinerView>) returns (snaps: seq<Snap>, totalIdle: nat, totalService: nat)
    ensures totalIdle == TotalIdle(snaps) && totalService == TotalService(snaps)
    ensures snaps == Counted(drawn)
    ensures WholeViews(drawn) ==> forall reward :: RoundSum(reward, totalIdle, totalService, snaps) <= reward
  {
    snaps, totalIdle, totalService := [], 0, 0;
    for i := 0 to |drawn|
      invariant totalIdle == TotalIdle(snaps) && totalService == TotalService(snaps)
      invariant snaps == Counted(drawn[..i])
    {
      var m := drawn[i];
      assert drawn[..i + 1][..i] == drawn[..i];
      if !m.locked && !(m.idle == 0 && m.service == 0) {
        TotalsAppend(snaps, Snap(m.idle, m.service));
        totalIdle := totalIdle + m.idle;
        totalService := totalService + m.service;
        snaps := snaps + [Snap(m.idle, m.service)];
      }
    }
    assert drawn[..|drawn|] == drawn;
    if WholeViews(drawn) {
      forall reward ensures RoundSum(reward, totalIdle, totalService, snaps) <= reward {
        SnapshotFits(reward, drawn);
      }
    }
  }

  predicate WholeViews(drawn: seq<MinerView>) {
    forall i :: 0 <= i < |drawn| ==> Whole(drawn[i].idle) && Whole(drawn[i].service)
  }

  lemma {:induction false} CountedHasPower(drawn: seq<MinerView>)
    requires WholeViews(drawn) && Counted(drawn) != []
    ensures PowerSum(Counted(drawn)) > 0
  {
    var init, m := drawn[..|drawn| - 1], drawn[|drawn| - 1];
    if Counted(init) != [] {
      CountedHasPower(init);
    }
    if !m.locked && !(m.idle == 0 && m.service == 0) {
      WholeSpaceHasPower(m.idle, m.service);
      PowerAppend(Counted(init), Snap(m.idle, m.service));
    } else {
      assert Counted(drawn) == Counted(init);
    }
  }

  lemma {:induction false} PowerAppend(snaps: seq<Snap>, m: Snap)
    ensures PowerSum(snaps + [m]) == PowerSum(snaps) + Power(m.idle, m.service)
  {
    if snaps == [] {
      assert snaps + [m] == [m];
    } else {
      PowerAppend(snaps[1..], m);
      assert (snaps + [m])[1..] == snaps[1..] + [m];
    }
  }

  /**
   * A round never over-promises: miners whose space is whole fragments, as all space in the network is, give every
   * snapshot that lists any of them power.
   */
  lemma SnapshotFits(reward: nat, drawn: seq<MinerView>)
    requires WholeViews(drawn)
    ensures var snaps := Counted(drawn);
            && RoundSum(reward, TotalIdle(snaps), TotalService(snaps), snaps) <= reward
            && (snaps != [] ==> Power(TotalIdle(snaps), TotalService(snaps)) > 0)
  {
    var snaps := Counted(drawn);
    RoundFitsIff(reward, snaps);
    if snaps != [] {
      CountedHasPower(drawn);
      PowersFit(snaps);
    }
  }

  function Counted(drawn: seq<MinerView>): seq<Snap> {
    if drawn == [] then []
    else
      var m := drawn[|drawn| - 1];
      Counted(drawn[..|drawn| - 1])
      + if !m.locked && !(m.idle == 0 && m.service == 0) then [Snap(m.idle, m.service)] else []
  }

  lemma {:induction false} TotalsAppend(snaps: seq<Snap>, m: Snap)
    ensures TotalIdle(snaps + [m]) == TotalIdle(snaps) + m.idle
    ensures TotalService(snaps + [m]) == TotalService(snaps) + m.service
  {
    if snaps == [] {
      assert snaps + [m] == [m];
    } else {
      TotalsAppend(snaps[1..], m);
      assert (snaps + [m])[1..] == snaps[1..] + [m];
    }
  }
}

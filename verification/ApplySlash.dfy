/**
 * Applying a pending slash: ledgers and balances are slashed, reporters are paid out of what was taken,
 * and the slash handler receives the rest.
 */
module ApplySlash {
  import opened Base
  import opened PerThings
  import opened Staking

  /** `handled` is what the slash handler has received so far. */
  datatype Bank = Bank(bonded: map<Account, Account>, ledgers: map<Account, Ledger>,
                       balances: map<Account, nat>, handled: nat) {
    ghost predicate Balanced() {
      forall c :: c in ledgers ==> ledgers[c].Balanced()
    }

    function Balance(who: Account): nat {
      if who in balances then balances[who] else 0
    }

    /** All there is: what accounts hold and what the handler received. */
    ghost function Issuance(): nat {
      MapSum(balances) + handled
    }
  }

  /** The reward still promised and what has been taken so far. */
  datatype Pot = Pot(payout: nat, imbalance: nat)

  datatype Terms = Terms(minimumBalance: nat, slashEra: nat, bondingDuration: nat) {
    function Start(): nat { slashEra + bondingDuration }
  }

  predicate HasLedger(b: Bank, who: Account) {
    who in b.bonded && b.bonded[who] in b.ledgers
  }

  function Slashed(b: Bank, who: Account, value: nat, t: Terms): nat
    requires HasLedger(b, who)
  {
    var l := b.ledgers[b.bonded[who]];
    Sub(l.total, SlashLedger(l, value, t.minimumBalance, t.Start()).total)
  }

  /** The bank after one stash is slashed; what its balance lacks comes off the reward. */
  function SlashBank(b: Bank, who: Account, value: nat, t: Terms): Bank {
    if !HasLedger(b, who) || Slashed(b, who, value, t) == 0 then b
    else
      var c, slashed := b.bonded[who], Slashed(b, who, value, t);
      b.(ledgers := b.ledgers[c := SlashLedger(b.ledgers[c], value, t.minimumBalance, t.Start())],
         balances := b.balances[who := b.Balance(who) - Min(slashed, b.Balance(who))])
  }

  function SlashPot(b: Bank, pot: Pot, who: Account, value: nat, t: Terms): Pot {
    if !HasLedger(b, who) then pot
    else
      var slashed := Slashed(b, who, value, t);
      var taken := Min(slashed, b.Balance(who));
      Pot(Sub(pot.payout, slashed - taken), pot.imbalance + taken)
  }

  function SlashAll(b: Bank, slashes: seq<(Account, nat)>, t: Terms): Bank
    decreases |slashes|
  {
    if slashes == [] then b
    else SlashAll(SlashBank(b, slashes[0].0, slashes[0].1, t), slashes[1..], t)
  }

  function PotAll(b: Bank, pot: Pot, slashes: seq<(Account, nat)>, t: Terms): Pot
    decreases |slashes|
  {
    if slashes == [] then pot
    else
      PotAll(SlashBank(b, slashes[0].0, slashes[0].1, t), SlashPot(b, pot, slashes[0].0, slashes[0].1, t),
             slashes[1..], t)
  }

  function Credit(balances: map<Account, nat>, reporters: seq<Account>, share: nat): map<Account, nat>
    decreases |reporters|
  {
    if reporters == [] then balances
    else
      var held := if reporters[0] in balances then balances[reporters[0]] else 0;
      Credit(balances[reporters[0] := held + share], reporters[1..], share)
  }

  /** What each reporter receives. */
  function Share(pot: Pot, reporters: seq<Account>): nat {
    if reporters == [] then 0 else Min(pot.payout, pot.imbalance) / |reporters|
  }

  function PayOut(b: Bank, pot: Pot, reporters: seq<Account>): Bank {
    if pot.payout == 0 || reporters == [] then b.(handled := b.handled + pot.imbalance)
    else
      var share := Share(pot, reporters);
      b.(balances := Credit(b.balances, reporters, share),
         handled := b.handled + Sub(pot.imbalance, |reporters| * share))
  }

  function Apply(b: Bank, payout: nat, slashes: seq<(Account, nat)>, reporters: seq<Account>, t: Terms): Bank {
    PayOut(SlashAll(b, slashes, t), PotAll(b, Pot(payout, 0), slashes, t), reporters)
  }

  // ----- Conservation

  lemma SlashMoves(b: Bank, pot: Pot, who: Account, value: nat, t: Terms)
    ensures SlashBank(b, who, value, t).Issuance() + SlashPot(b, pot, who, value, t).imbalance
         == b.Issuance() + pot.imbalance
    ensures SlashPot(b, pot, who, value, t).payout <= pot.payout
  {
    if HasLedger(b, who) {
      var taken := Min(Slashed(b, who, value, t), b.Balance(who));
      MapSumUpdate(b.balances, who, b.Balance(who) - taken);
    }
  }

  lemma {:induction false} SlashesMove(b: Bank, pot: Pot, slashes: seq<(Account, nat)>, t: Terms)
    ensures SlashAll(b, slashes, t).Issuance() + PotAll(b, pot, slashes, t).imbalance == b.Issuance() + pot.imbalance
    ensures PotAll(b, pot, slashes, t).payout <= pot.payout
    decreases |slashes|
  {
    if slashes != [] {
      SlashMoves(b, pot, slashes[0].0, slashes[0].1, t);
      SlashesMove(SlashBank(b, slashes[0].0, slashes[0].1, t), SlashPot(b, pot, slashes[0].0, slashes[0].1, t),
                  slashes[1..], t);
    }
  }

  function Totals(ledgers: map<Account, Ledger>): map<Account, nat> {
    map c | c in ledgers :: ledgers[c].total
  }

  /** What all ledgers hold. */
  ghost function TotalBonded(b: Bank): nat {
    MapSum(Totals(b.ledgers))
  }

  /** The part of a slash that the balance of the stash does not cover. */
  function Missing(b: Bank, who: Account, value: nat, t: Terms): nat {
    if HasLedger(b, who) then Sub(Slashed(b, who, value, t), b.Balance(who)) else 0
  }

  function TotalMissing(b: Bank, slashes: seq<(Account, nat)>, t: Terms): nat
    decreases |slashes|
  {
    if slashes == [] then 0
    else Missing(b, slashes[0].0, slashes[0].1, t)
         + TotalMissing(SlashBank(b, slashes[0].0, slashes[0].1, t), slashes[1..], t)
  }

  lemma TotalsUpdate(ledgers: map<Account, Ledger>, c: Account, l: Ledger)
    requires c in ledgers
    ensures MapSum(Totals(ledgers[c := l])) == MapSum(Totals(ledgers)) - ledgers[c].total + l.total
  {
    MapSumUpdate(Totals(ledgers), c, l.total);
    assert Totals(ledgers[c := l]) == Totals(ledgers)[c := l.total];
  }

  /**
   * The ledger of the stash's controller pays the slash, at least the value or all it holds, and no other ledger does;
   * the balance of the stash pays as much of it as it can, and no other balance does.
   */
  lemma LedgerPays(b: Bank, who: Account, value: nat, t: Terms)
    requires b.Balanced() && HasLedger(b, who)
    ensures var b', c, slashed := SlashBank(b, who, value, t), b.bonded[who], Slashed(b, who, value, t);
            && c in b'.ledgers && b'.ledgers[c].total == b.ledgers[c].total - slashed
            && Min(value, b.ledgers[c].total) <= slashed <= b.ledgers[c].total
            && b'.ledgers - {c} == b.ledgers - {c} && b'.bonded == b.bonded && b'.Balanced()
            && b'.Balance(who) == Sub(b.Balance(who), slashed) && (slashed == 0 ==> b' == b)
            && (forall a :: a != who ==> b'.Balance(a) == b.Balance(a))
  {
    var c := b.bonded[who];
    SlashBounds(b.ledgers[c], value, t.minimumBalance, t.Start());
  }

  lemma BondedPays(b: Bank, pot: Pot, who: Account, value: nat, t: Terms)
    requires b.Balanced()
    ensures SlashBank(b, who, value, t).Balanced()
    ensures TotalBonded(b) == TotalBonded(SlashBank(b, who, value, t)) + Missing(b, who, value, t)
                              + SlashPot(b, pot, who, value, t).imbalance - pot.imbalance
    ensures SlashPot(b, pot, who, value, t).payout == Sub(pot.payout, Missing(b, who, value, t))
  {
    if HasLedger(b, who) {
      var c := b.bonded[who];
      LedgerPays(b, who, value, t);
      TotalsUpdate(b.ledgers, c, SlashLedger(b.ledgers[c], value, t.minimumBalance, t.Start()));
    }
  }

  /**
   * Ledgers pay for everything: what they lose over all slashes is what was taken from balances plus what the balances
   * lacked, and exactly the latter comes off the payout.
   */
  lemma {:induction false} LedgersPay(b: Bank, pot: Pot, slashes: seq<(Account, nat)>, t: Terms)
    requires b.Balanced()
    ensures TotalBonded(b) == TotalBonded(SlashAll(b, slashes, t)) + TotalMissing(b, slashes, t)
                              + PotAll(b, pot, slashes, t).imbalance - pot.imbalance
    ensures PotAll(b, pot, slashes, t).payout == Sub(pot.payout, TotalMissing(b, slashes, t))
    decreases |slashes|
  {
    if slashes != [] {
      BondedPays(b, pot, slashes[0].0, slashes[0].1, t);
      LedgersPay(SlashBank(b, slashes[0].0, slashes[0].1, t), SlashPot(b, pot, slashes[0].0, slashes[0].1, t),
                 slashes[1..], t);
    }
  }

  /** What an account receives that is named among the reporters. */
  function Receives(reporters: seq<Account>, share: nat, a: Account): nat {
    if reporters == [] then 0 else (if reporters[0] == a then share else 0) + Receives(reporters[1..], share, a)
  }

  function Held(balances: map<Account, nat>, a: Account): nat {
    if a in balances then balances[a] else 0
  }

  /** Every account receives one share for each time it is named, and nobody else anything. */
  lemma {:induction false} CreditIsPerEntry(balances: map<Account, nat>, reporters: seq<Account>, share: nat,
                                            a: Account)
    ensures Held(Credit(balances, reporters, share), a) == Held(balances, a) + Receives(reporters, share, a)
    decreases |reporters|
  {
    if reporters != [] {
      var credited := balances[reporters[0] := Held(balances, reporters[0]) + share];
      CreditIsPerEntry(credited, reporters[1..], share, a);
    }
  }

  lemma {:induction false} ReceivesPerEntry(reporters: seq<Account>, share: nat, a: Account)
    ensures Receives(reporters, share, a) == multiset(reporters)[a] * share
  {
    if reporters != [] {
      assert reporters == [reporters[0]] + reporters[1..];
      ReceivesPerEntry(reporters[1..], share, a);
      var n := multiset(reporters[1..])[a];
      assert (n + 1) * share == n * share + share;
    }
  }

  lemma {:induction false} CreditPays(balances: map<Account, nat>, reporters: seq<Account>, share: nat)
    ensures MapSum(Credit(balances, reporters, share)) == MapSum(balances) + |reporters| * share
    decreases |reporters|
  {
    if reporters != [] {
      var held := if reporters[0] in balances then balances[reporters[0]] else 0;
      MapSumUpdate(balances, reporters[0], held + share);
      CreditPays(balances[reporters[0] := held + share], reporters[1..], share);
      MulAtMost(|reporters| - 1, |reporters|, share);
    }
  }

  lemma ShareFits(pot: Pot, reporters: seq<Account>)
    ensures |reporters| * Share(pot, reporters) <= Min(pot.payout, pot.imbalance)
    ensures reporters != [] ==> Min(pot.payout, pot.imbalance) < |reporters| * Share(pot, reporters) + |reporters|
  {
  }

  /**
   * Value is conserved: reporters and the handler together receive exactly what was taken from all stashes, and
   * reporters at most the promised payout, in equal shares that leave less than one unit each.
   */
  lemma ApplyConserves(b: Bank, payout: nat, slashes: seq<(Account, nat)>, reporters: seq<Account>, t: Terms)
    ensures Apply(b, payout, slashes, reporters, t).Issuance() == b.Issuance()
    ensures var pot := PotAll(b, Pot(payout, 0), slashes, t);
            var paid := |reporters| * Share(pot, reporters);
            && paid <= payout
            && Apply(b, payout, slashes, reporters, t).handled - SlashAll(b, slashes, t).handled == pot.imbalance - paid
            && MapSum(SlashAll(b, slashes, t).balances) == MapSum(b.balances) - pot.imbalance
  {
    var pot := PotAll(b, Pot(payout, 0), slashes, t);
    var after := SlashAll(b, slashes, t);
    SlashesMove(b, Pot(payout, 0), slashes, t);
    SlashesHandleNothing(b, slashes, t);
    ShareFits(pot, reporters);
    CreditPays(after.balances, reporters, Share(pot, reporters));
  }

  lemma {:induction false} SlashesHandleNothing(b: Bank, slashes: seq<(Account, nat)>, t: Terms)
    ensures SlashAll(b, slashes, t).handled == b.handled
    decreases |slashes|
  {
    if slashes != [] {
      SlashesHandleNothing(SlashBank(b, slashes[0].0, slashes[0].1, t), slashes[1..], t);
    }
  }

  // ----- The storage items, updated in place

  class Balances {
    var bonded: map<Account, Account>
    var ledgers: map<Account, Ledger>
    var balances: map<Account, nat>
    var handled: nat

    function Value(): Bank
      reads this
    {
      Bank(bonded, ledgers, balances, handled)
    }

    constructor (b: Bank)
      ensures Value() == b
    {
      bonded, ledgers, balances, handled := b.bonded, b.ledgers, b.balances, b.handled;
    }

    method DoSlash(who: Account, value: nat, pot: Pot, t: Terms) returns (rest: Pot)
      requires Value().Balanced()
      modifies this
      ensures Value().Balanced()
      ensures Value() == SlashBank(old(Value()), who, value, t)
      ensures rest == SlashPot(old(Value()), pot, who, value, t)
    {
      rest := pot;
      if who !in bonded || bonded[who] !in ledgers {
        return;
      }
      var controller := bonded[who];
      var slashed, ledger := SlashOne(ledgers[controller], value, t);
      if slashed != 0 {
        var held := if who in balances then balances[who] else 0;
        var taken := Min(slashed, held);
        var missing := slashed - taken;
        balances := balances[who := held - taken];
        rest := rest.(imbalance := rest.imbalance + taken);
        if missing != 0 {
          rest := rest.(payout := Sub(rest.payout, missing));
        }
        ledgers := ledgers[controller := ledger];
      }
    }

    static method SlashOne(l: Ledger, value: nat, t: Terms) returns (slashed: nat, after: Ledger)
      requires l.Balanced()
      ensures after == SlashLedger(l, value, t.minimumBalance, t.Start())
      ensures after.Balanced()
      ensures slashed == Sub(l.total, after.total)
    {
      var ledger := new StakingLedger(l);
      slashed := ledger.Slash(value, t.minimumBalance, t.slashEra, t.bondingDuration);
      after := ledger.Value();
    }

    method ApplySlash(validator: Account, own: nat, others: seq<(Account, nat)>, payout: nat,
                      reporters: seq<Account>, t: Terms)
      requires Value().Balanced()
      modifies this
      ensures Value().Balanced()
      ensures Value() == Apply(old(Value()), payout, [(validator, own)] + others, reporters, t)
    {
      ghost var b, start := Value(), Pot(payout, 0);
      ghost var all := [(validator, own)] + others;
      assert all[1..] == others;
      var pot := DoSlash(validator, own, Pot(payout, 0), t);
      for i := 0 to |others|
        invariant Value().Balanced()
        invariant SlashAll(Value(), others[i..], t) == SlashAll(b, all, t)
        invariant PotAll(Value(), pot, others[i..], t) == PotAll(b, start, all, t)
      {
        assert others[i..][1..] == others[i + 1..];
        pot := DoSlash(others[i].0, others[i].1, pot, t);
      }
      PayReporters(pot, reporters);
    }

    method PayReporters(pot: Pot, reporters: seq<Account>)
      modifies this`balances, this`handled
      ensures Value() == PayOut(old(Value()), pot, reporters)
    {
      if pot.payout == 0 || reporters == [] {
        handled := handled + pot.imbalance;
        return;
      }
      var payout := Min(pot.payout, pot.imbalance);
      var kept := pot.imbalance - payout;
      var share := payout / |reporters|;
      ShareFits(pot, reporters);
      ghost var before := balances;
      for i := 0 to |reporters|
        invariant handled == old(handled)
        invariant payout + i * share == Min(pot.payout, pot.imbalance)
        invariant Credit(balances, reporters[i..], share) == Credit(before, reporters, share)
      {
        MulAtMost(i, |reporters|, share);
        assert reporters[i..][1..] == reporters[i + 1..];
        payout := payout - share;
        var held := if reporters[i] in balances then balances[reporters[i]] else 0;
        balances := balances[reporters[i] := held + share];
      }
      handled := handled + kept + payout;
    }
  }

  lemma MulAtMost(i: nat, n: nat, share: nat)
    requires i < n
    ensures i * share + share == (i + 1) * share <= n * share
  {
    MulMonotone(i + 1, share, n, share);
  }
}

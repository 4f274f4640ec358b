/**
 * Computing a slash from an offence report: the validator and every nominator behind it are charged the growth
 * of their slash in the era, and each charge is settled in their spans.
 */
module ComputeSlash {
  import opened Base
  import opened PerThings
  import opened SpanSlash

  datatype IndividualExposure = IndividualExposure(who: Account, value: nat)

  datatype Exposure = Exposure(total: nat, own: nat, others: seq<IndividualExposure>) {
    predicate Valid() {
      forall i :: 0 <= i < |others| ==> others[i].value <= total
    }
  }

  datatype SlashParams = SlashParams(
    stash: Account, slash: Perbill, exposure: Exposure,
    slashEra: nat, windowStart: nat, now: nat, rewardProportion: Perbill)

  datatype UnappliedSlash = UnappliedSlash(validator: Account, own: nat, others: seq<(Account, nat)>, payout: nat)

  type ValidatorSlashes = map<(nat, Account), (Perbill, nat)>
  type NominatorSlashes = map<(nat, Account), nat>

  datatype Store = Store(validatorSlash: ValidatorSlashes, nominatorSlash: NominatorSlashes, meta: Meta)

  // ----- Settling charges in the spans of many stashes

  type Meta = map<Account, Stash>

  function At(m: Meta, who: Account): Stash {
    if who in m then m[who] else CLEAN
  }

  datatype Move = Move(who: Account, step: Step)

  /** What settling a sequence of charges leaves and yields. */
  datatype Settled = Settled(meta: Meta, amounts: seq<(Account, nat)>, payout: nat)

  function Settle(s: Settled, move: Move): Settled {
    var o := Apply(At(s.meta, move.who), move.step);
    Settled(s.meta[move.who := o.stash], s.amounts + [(move.who, o.slashed)], s.payout + o.paid)
  }

  function SettleAll(s: Settled, moves: seq<Move>): (s': Settled)
    ensures |s'.amounts| == |s.amounts| + |moves|
    decreases |moves|
  {
    if moves == [] then s else SettleAll(Settle(s, moves[0]), moves[1..])
  }

  // ----- The computation

  function PriorProportion(v: ValidatorSlashes, era: nat, who: Account): Perbill {
    if (era, who) in v then v[(era, who)].0 else 0
  }

  function EraSlash(n: NominatorSlashes, era: nat, who: Account): nat {
    if (era, who) in n then n[(era, who)] else 0
  }

  /** The era slash of a nominator after its validator's proportion grows from `prior` to `p.slash`. */
  function GrownSlash(n: NominatorSlashes, p: SlashParams, prior: Perbill, e: IndividualExposure): nat {
    EraSlash(n, p.slashEra, e.who) + Sub(Times(p.slash, e.value), Times(prior, e.value))
  }

  function Charge(p: SlashParams, who: Account, amount: nat): Move {
    Move(who, Slash(p.slashEra, amount, p.windowStart, p.now, p.rewardProportion))
  }

  function Grow(n: NominatorSlashes, p: SlashParams, prior: Perbill, e: IndividualExposure): NominatorSlashes {
    n[(p.slashEra, e.who) := GrownSlash(n, p, prior, e)]
  }

  function GrowAll(n: NominatorSlashes, p: SlashParams, prior: Perbill,
                   others: seq<IndividualExposure>): NominatorSlashes
    decreases |others|
  {
    if others == [] then n else GrowAll(Grow(n, p, prior, others[0]), p, prior, others[1..])
  }

  /** Each nominator is charged its grown era slash. */
  function NominatorMoves(n: NominatorSlashes, p: SlashParams, prior: Perbill,
                          others: seq<IndividualExposure>): (moves: seq<Move>)
    ensures forall k :: 0 <= k < |moves| ==> moves[k].step.Slash?
    decreases |others|
  {
    if others == [] then []
    else
      [Charge(p, others[0].who, GrownSlash(n, p, prior, others[0]))]
      + NominatorMoves(Grow(n, p, prior, others[0]), p, prior, others[1..])
  }

  predicate RoundsToZero(p: SlashParams) {
    Times(p.slash, p.exposure.total) == 0
  }

  predicate NewMaximum(s: Store, p: SlashParams) {
    !RoundsToZero(p) && PriorProportion(s.validatorSlash, p.slashEra, p.stash) < p.slash
  }

  /** The moves of a report: none when it is not a new maximum, a kick when it rounds to zero. */
  function ReportMoves(s: Store, p: SlashParams): seq<Move> {
    if RoundsToZero(p) then [Move(p.stash, Kick(p.slashEra, p.windowStart, p.now))]
    else if !NewMaximum(s, p) then []
    else
      [Charge(p, p.stash, Times(p.slash, p.exposure.own))]
      + NominatorMoves(s.nominatorSlash, p, PriorProportion(s.validatorSlash, p.slashEra, p.stash), p.exposure.others)
  }

  function Reported(s: Store, p: SlashParams): Settled {
    SettleAll(Settled(s.meta, [], 0), ReportMoves(s, p))
  }

  function Compute(s: Store, p: SlashParams): Store {
    if !NewMaximum(s, p) then s.(meta := Reported(s, p).meta)
    else
      var prior := PriorProportion(s.validatorSlash, p.slashEra, p.stash);
      Store(s.validatorSlash[(p.slashEra, p.stash) := (p.slash, Times(p.slash, p.exposure.own))],
            GrowAll(s.nominatorSlash, p, prior, p.exposure.others),
            Reported(s, p).meta)
  }

  function Unapplied(s: Store, p: SlashParams): Option<UnappliedSlash> {
    if !NewMaximum(s, p) then None
    else
      var r := Reported(s, p);
      Some(UnappliedSlash(p.stash, r.amounts[0].1, r.amounts[1..], r.payout))
  }

  function WithoutEra<T>(slashes: map<(nat, Account), T>, era: nat): map<(nat, Account), T> {
    map k | k in slashes && k.0 != era :: slashes[k]
  }

  function ClearEra(s: Store, era: nat): Store {
    s.(validatorSlash := WithoutEra(s.validatorSlash, era), nominatorSlash := WithoutEra(s.nominatorSlash, era))
  }

  // ----- The storage items, updated in place

  class Slashing {
    var validatorSlashInEra: ValidatorSlashes
    var nominatorSlashInEra: NominatorSlashes
    var stashes: Meta

    function Value(): Store
      reads this
    {
      Store(validatorSlashInEra, nominatorSlashInEra, stashes)
    }

    constructor ()
      ensures Value() == Store(map[], map[], map[])
    {
      validatorSlashInEra, nominatorSlashInEra, stashes := map[], map[], map[];
    }

    method ComputeSlash(p: SlashParams) returns (r: Option<UnappliedSlash>)
      modifies this
      ensures Value() == Compute(old(Value()), p)
      ensures r == Unapplied(old(Value()), p)
    {
      var ownSlash := Times(p.slash, p.exposure.own);
      if Times(p.slash, p.exposure.total) == 0 {
        KickOutIfRecent(p);
        return None;
      }
      var key := (p.slashEra, p.stash);
      var prior := if key in validatorSlashInEra then validatorSlashInEra[key].0 else 0;
      if p.slash <= prior {
        return None;
      }
      validatorSlashInEra := validatorSlashInEra[key := (p.slash, ownSlash)];
      ReportUnrolls(old(Value()), p);
      var all := SettleCharge(p, p.stash, ownSlash, Settled(stashes, [], 0));
      all := SlashNominators(p, prior, all);
      r := Some(UnappliedSlash(p.stash, all.amounts[0].1, all.amounts[1..], all.payout));
    }

    method KickOutIfRecent(p: SlashParams)
      modifies this`stashes
      ensures stashes == SettleAll(Settled(old(stashes), [], 0),
                                   [Move(p.stash, Kick(p.slashEra, p.windowStart, p.now))]).meta
    {
      var store := new StashStore(At(stashes, p.stash));
      store.KickOutIfRecent(p.slashEra, p.windowStart, p.now);
      stashes := stashes[p.stash := store.Value()];
    }

    /** Charges the nominators in turn, adding to what was settled so far. */
    method SlashNominators(p: SlashParams, prior: Perbill, sofar: Settled) returns (all: Settled)
      requires sofar.meta == stashes
      modifies this`nominatorSlashInEra, this`stashes
      ensures nominatorSlashInEra == GrowAll(old(nominatorSlashInEra), p, prior, p.exposure.others)
      ensures all == SettleAll(sofar, NominatorMoves(old(nominatorSlashInEra), p, prior, p.exposure.others))
      ensures stashes == all.meta
    {
      all := sofar;
      var others := p.exposure.others;
      for i := 0 to |others|
        invariant all.meta == stashes
        invariant GrowAll(nominatorSlashInEra, p, prior, others[i..])
               == GrowAll(old(nominatorSlashInEra), p, prior, others)
        invariant SettleAll(all, NominatorMoves(nominatorSlashInEra, p, prior, others[i..]))
               == SettleAll(sofar, NominatorMoves(old(nominatorSlashInEra), p, prior, others))
      {
        NominatorsUnroll(nominatorSlashInEra, p, prior, others, i, all);
        all := SlashNominator(p, prior, others[i], all);
      }
    }

    method SlashNominator(p: SlashParams, prior: Perbill, nominator: IndividualExposure, sofar: Settled)
      returns (all: Settled)
      requires sofar.meta == stashes
      modifies this`nominatorSlashInEra, this`stashes
      ensures nominatorSlashInEra == Grow(old(nominatorSlashInEra), p, prior, nominator)
      ensures all == Settle(sofar, Charge(p, nominator.who, GrownSlash(old(nominatorSlashInEra), p, prior, nominator)))
      ensures stashes == all.meta
    {
      var key := (p.slashEra, nominator.who);
      var ownSlashPrior := Times(prior, nominator.value);
      var ownSlashByValidator := Times(p.slash, nominator.value);
      var eraSlash := (if key in nominatorSlashInEra then nominatorSlashInEra[key] else 0)
                      + Sub(ownSlashByValidator, ownSlashPrior);
      nominatorSlashInEra := nominatorSlashInEra[key := eraSlash];
      all := SettleCharge(p, nominator.who, eraSlash, sofar);
    }

    method SettleCharge(p: SlashParams, who: Account, amount: nat, sofar: Settled) returns (all: Settled)
      requires sofar.meta == stashes
      modifies this`stashes
      ensures all == Settle(sofar, Charge(p, who, amount))
      ensures stashes == all.meta
    {
      var store := new StashStore(At(stashes, who));
      var slashed, paid := store.Slash(p.slashEra, amount, p.windowStart, p.now, p.rewardProportion);
      stashes := stashes[who := store.Value()];
      all := Settled(stashes, sofar.amounts + [(who, slashed)], sofar.payout + paid);
    }

    method ClearStashMetadata(who: Account, numSlashingSpans: nat) returns (ok: bool)
      modifies this
      ensures Value() == After(old(Value()), ForgetStash(who, numSlashingSpans))
      ensures ok <==> At(stashes, who) == CLEAN
    {
      var store := new StashStore(At(stashes, who));
      ok := store.ClearStashMetadata(numSlashingSpans);
      stashes := stashes[who := store.Value()];
    }

    method ClearEraMetadata(era: nat)
      modifies this
      ensures Value() == ClearEra(old(Value()), era)
    {
      validatorSlashInEra := map k | k in validatorSlashInEra && k.0 != era :: validatorSlashInEra[k];
      nominatorSlashInEra := map k | k in nominatorSlashInEra && k.0 != era :: nominatorSlashInEra[k];
    }
  }

  lemma ReportUnrolls(s: Store, p: SlashParams)
    requires NewMaximum(s, p)
    ensures var prior := PriorProportion(s.validatorSlash, p.slashEra, p.stash);
            var own := Charge(p, p.stash, Times(p.slash, p.exposure.own));
            Reported(s, p) == SettleAll(Settle(Settled(s.meta, [], 0), own),
                                        NominatorMoves(s.nominatorSlash, p, prior, p.exposure.others))
  {
    var prior := PriorProportion(s.validatorSlash, p.slashEra, p.stash);
    var moves := ReportMoves(s, p);
    assert moves[1..] == NominatorMoves(s.nominatorSlash, p, prior, p.exposure.others);
  }

  lemma NominatorsUnroll(n: NominatorSlashes, p: SlashParams, prior: Perbill,
                         others: seq<IndividualExposure>, i: nat, sofar: Settled)
    requires i < |others|
    ensures var n' := Grow(n, p, prior, others[i]);
            && GrowAll(n, p, prior, others[i..]) == GrowAll(n', p, prior, others[i + 1..])
            && SettleAll(sofar, NominatorMoves(n, p, prior, others[i..]))
               == SettleAll(Settle(sofar, Charge(p, others[i].who, GrownSlash(n, p, prior, others[i]))),
                            NominatorMoves(n', p, prior, others[i + 1..]))
  {
    assert others[i..][1..] == others[i + 1..];
    var moves := NominatorMoves(n, p, prior, others[i..]);
    assert moves[1..] == NominatorMoves(Grow(n, p, prior, others[i]), p, prior, others[i + 1..]);
  }

  // ----- Whole runs of reports

  datatype Event =
    | Offence(p: SlashParams)
    | ForgetEra(era: nat)
    | ForgetStash(who: Account, numSpans: nat)

  function EventMoves(s: Store, e: Event): seq<Move> {
    match e
    case Offence(p) => ReportMoves(s, p)
    case ForgetEra(_) => []
    case ForgetStash(who, numSpans) => [Move(who, Forget(numSpans))]
  }

  function After(s: Store, e: Event): Store {
    match e
    case Offence(p) => Compute(s, p)
    case ForgetEra(era) => ClearEra(s, era)
    case ForgetStash(who, numSpans) => s.(meta := s.meta[who := Apply(At(s.meta, who), Forget(numSpans)).stash])
  }

  function RunEvents(s: Store, es: seq<Event>): Store
    decreases |es|
  {
    if es == [] then s else RunEvents(After(s, es[0]), es[1..])
  }

  /** Every move of a run, in order. */
  function AllMoves(s: Store, es: seq<Event>): seq<Move>
    decreases |es|
  {
    if es == [] then [] else EventMoves(s, es[0]) + AllMoves(After(s, es[0]), es[1..])
  }

  function ShareOf(amounts: seq<(Account, nat)>, who: Account): nat {
    if amounts == [] then 0
    else (if amounts[0].0 == who then amounts[0].1 else 0) + ShareOf(amounts[1..], who)
  }

  /** What the pending record of a report holds against `who`. */
  function Charged(s: Store, e: Event, who: Account): nat {
    if e.Offence? && Unapplied(s, e.p).Some? then
      var u := Unapplied(s, e.p).value;
      ShareOf([(u.validator, u.own)] + u.others, who)
    else 0
  }

  function TotalCharged(s: Store, es: seq<Event>, who: Account): nat
    decreases |es|
  {
    if es == [] then 0 else Charged(s, es[0], who) + TotalCharged(After(s, es[0]), es[1..], who)
  }

  /** The steps a sequence of moves takes at one stash. */
  function Steps(moves: seq<Move>, who: Account): seq<Step> {
    if moves == [] then []
    else if moves[0].who == who then [moves[0].step] + Steps(moves[1..], who)
    else Steps(moves[1..], who)
  }

  lemma {:induction false} StepsAppend(a: seq<Move>, b: seq<Move>, who: Account)
    ensures Steps(a + b, who) == Steps(a, who) + Steps(b, who)
  {
    if a == [] {
      assert a + b == b;
    } else {
      StepsAppend(a[1..], b, who);
      assert (a + b)[1..] == a[1..] + b;
      var x := [a[0].step];
      assert x + (Steps(a[1..], who) + Steps(b, who)) == x + Steps(a[1..], who) + Steps(b, who);
    }
  }

  lemma {:induction false} ShareAppend(a: seq<(Account, nat)>, b: seq<(Account, nat)>, who: Account)
    ensures ShareOf(a + b, who) == ShareOf(a, who) + ShareOf(b, who)
  {
    if a == [] {
      assert a + b == b;
    } else {
      ShareAppend(a[1..], b, who);
      assert (a + b)[1..] == a[1..] + b;
    }
  }

  /** Settling many stashes settles each as if alone. */
  lemma {:induction false} SettleProjects(s: Settled, moves: seq<Move>, who: Account)
    ensures At(SettleAll(s, moves).meta, who) == Run(At(s.meta, who), Steps(moves, who))
    ensures ShareOf(SettleAll(s, moves).amounts, who)
         == ShareOf(s.amounts, who) + TotalSlashed(At(s.meta, who), Steps(moves, who))
    decreases |moves|
  {
    if moves != [] {
      var s' := Settle(s, moves[0]);
      var o := Apply(At(s.meta, moves[0].who), moves[0].step);
      SettleProjects(s', moves[1..], who);
      ShareAppend(s.amounts, [(moves[0].who, o.slashed)], who);
      if moves[0].who == who {
        RunFirst(At(s.meta, who), moves[0].step, Steps(moves[1..], who));
      } else {
        assert Steps(moves, who) == Steps(moves[1..], who);
      }
    }
  }

  lemma {:induction false} SettleKeepsAmounts(s: Settled, moves: seq<Move>)
    ensures SettleAll(s, moves).amounts[..|s.amounts|] == s.amounts
    decreases |moves|
  {
    if moves != [] {
      var s' := Settle(s, moves[0]);
      SettleKeepsAmounts(s', moves[1..]);
      assert SettleAll(s, moves).amounts[..|s.amounts|] == s'.amounts[..|s.amounts|];
    }
  }

  /** One event: the spans of `who` run through its steps, and its pending charge is what they added. */
  lemma EventProjects(s: Store, e: Event, who: Account)
    ensures At(After(s, e).meta, who) == Run(At(s.meta, who), Steps(EventMoves(s, e), who))
    ensures Charged(s, e, who) == TotalSlashed(At(s.meta, who), Steps(EventMoves(s, e), who))
  {
    match e
    case Offence(p) => ReportProjects(s, p, who);
    case ForgetEra(_) =>
    case ForgetStash(other, numSpans) =>
      if other == who {
        RunFirst(At(s.meta, who), Forget(numSpans), []);
      }
  }

  lemma ReportProjects(s: Store, p: SlashParams, who: Account)
    ensures At(Compute(s, p).meta, who) == Run(At(s.meta, who), Steps(ReportMoves(s, p), who))
    ensures Charged(s, Offence(p), who) == TotalSlashed(At(s.meta, who), Steps(ReportMoves(s, p), who))
  {
    SettleProjects(Settled(s.meta, [], 0), ReportMoves(s, p), who);
    if NewMaximum(s, p) {
      ChargedIsShare(s, p, who);
    } else {
      KicksChargeNothing(s, p, who);
    }
  }

  lemma ChargedIsShare(s: Store, p: SlashParams, who: Account)
    requires NewMaximum(s, p)
    ensures Charged(s, Offence(p), who) == ShareOf(Reported(s, p).amounts, who)
  {
    var moves, r := ReportMoves(s, p), Reported(s, p);
    SettleKeepsAmounts(Settle(Settled(s.meta, [], 0), moves[0]), moves[1..]);
    assert r.amounts[..1] == [r.amounts[0]] && r.amounts[0].0 == p.stash;
    assert r.amounts == [(p.stash, r.amounts[0].1)] + r.amounts[1..];
  }

  lemma KicksChargeNothing(s: Store, p: SlashParams, who: Account)
    requires !NewMaximum(s, p)
    ensures TotalSlashed(At(s.meta, who), Steps(ReportMoves(s, p), who)) == 0
  {
    if RoundsToZero(p) && p.stash == who {
      RunFirst(At(s.meta, who), Kick(p.slashEra, p.windowStart, p.now), []);
    }
  }

  /**
   * Max, not sum, end to end: over any run of offence reports, all pending slashes ever raised against a stash,
   * as validator or nominator, add up to the largest charge of each of its spans.
   */
  lemma {:induction false} ChargesAreSpanMaxima(s: Store, es: seq<Event>, who: Account, n: nat)
    requires At(s.meta, who) == CLEAN
    requires forall k :: 0 <= k < |es| && es[k].ForgetStash? ==> es[k].who != who
    requires At(RunEvents(s, es).meta, who).spans.Some? ==> At(RunEvents(s, es).meta, who).spans.value.index < n
    ensures TotalCharged(s, es, who) == SumOfLargest(CLEAN, Steps(AllMoves(s, es), who), n)
  {
    RunProjects(s, es, who);
    OnlyForgetsForget(s, es, who);
    MaxNotSum(Steps(AllMoves(s, es), who), n);
  }

  lemma {:induction false} RunProjects(s: Store, es: seq<Event>, who: Account)
    ensures At(RunEvents(s, es).meta, who) == Run(At(s.meta, who), Steps(AllMoves(s, es), who))
    ensures TotalCharged(s, es, who) == TotalSlashed(At(s.meta, who), Steps(AllMoves(s, es), who))
    decreases |es|
  {
    if es != [] {
      var s', first := After(s, es[0]), EventMoves(s, es[0]);
      EventProjects(s, es[0], who);
      RunProjects(s', es[1..], who);
      StepsAppend(first, AllMoves(s', es[1..]), who);
      RunInTwo(At(s.meta, who), Steps(first, who), Steps(AllMoves(s', es[1..]), who));
    }
  }

  lemma {:induction false} OnlyForgetsForget(s: Store, es: seq<Event>, who: Account)
    requires forall k :: 0 <= k < |es| && es[k].ForgetStash? ==> es[k].who != who
    ensures NeverForgets(Steps(AllMoves(s, es), who))
    decreases |es|
  {
    if es != [] {
      OnlyForgetsForget(After(s, es[0]), es[1..], who);
      StepsAppend(EventMoves(s, es[0]), AllMoves(After(s, es[0]), es[1..]), who);
      EventNeverForgets(s, es[0], who);
    }
  }

  lemma EventNeverForgets(s: Store, e: Event, who: Account)
    requires e.ForgetStash? ==> e.who != who
    ensures NeverForgets(Steps(EventMoves(s, e), who))
  {
    if e.Offence? {
      ReportsNeverForget(ReportMoves(s, e.p), who);
    }
  }

  lemma {:induction false} ReportsNeverForget(moves: seq<Move>, who: Account)
    requires forall k :: 0 <= k < |moves| ==> !moves[k].step.Forget?
    ensures NeverForgets(Steps(moves, who))
  {
    if moves != [] {
      ReportsNeverForget(moves[1..], who);
    }
  }

  // ----- What reporters are promised

  /** The promises of a sequence of moves, stash by stash. */
  ghost function PaidOver(m: Meta, moves: seq<Move>, whos: seq<Account>): nat {
    if whos == [] then 0
    else TotalPaid(At(m, whos[0]), Steps(moves, whos[0])) + PaidOver(m, moves, whos[1..])
  }

  lemma {:induction false} PaidOverFirst(m: Meta, moves: seq<Move>, whos: seq<Account>)
    requires moves != [] && Distinct(whos)
    ensures var o := Apply(At(m, moves[0].who), moves[0].step);
            PaidOver(m, moves, whos)
            == PaidOver(m[moves[0].who := o.stash], moves[1..], whos) + if moves[0].who in whos then o.paid else 0
  {
    if whos != [] {
      PaidOverFirst(m, moves, whos[1..]);
      if whos[0] == moves[0].who {
        RunFirst(At(m, whos[0]), moves[0].step, Steps(moves[1..], whos[0]));
      }
    }
  }

  lemma {:induction false} NothingPaid(m: Meta, whos: seq<Account>)
    ensures PaidOver(m, [], whos) == 0
  {
    if whos != [] {
      NothingPaid(m, whos[1..]);
    }
  }

  /** The payout of a report is the sum of what its stashes' spans promised. */
  lemma {:induction false} PayoutIsPaid(s: Settled, moves: seq<Move>, whos: seq<Account>)
    requires Distinct(whos) && forall k :: 0 <= k < |moves| ==> moves[k].who in whos
    ensures SettleAll(s, moves).payout == s.payout + PaidOver(s.meta, moves, whos)
    decreases |moves|
  {
    if moves == [] {
      NothingPaid(s.meta, whos);
    } else {
      PaidOverFirst(s.meta, moves, whos);
      PayoutIsPaid(Settle(s, moves[0]), moves[1..], whos);
    }
  }

  /** A run of moves as one settlement. */
  lemma {:induction false} SettleInTwo(s: Settled, a: seq<Move>, b: seq<Move>)
    ensures SettleAll(s, a + b) == SettleAll(SettleAll(s, a), b)
    decreases |a|
  {
    if a == [] {
      assert a + b == b;
    } else {
      SettleInTwo(Settle(s, a[0]), a[1..], b);
      assert (a + b)[1..] == a[1..] + b;
    }
  }

  /** Amounts and payout of the settlement so far never change what is settled next. */
  lemma {:induction false} SettleIsIncremental(s: Settled, t: Settled, moves: seq<Move>)
    requires s.meta == t.meta
    ensures SettleAll(s, moves).meta == SettleAll(t, moves).meta
    ensures SettleAll(s, moves).payout - s.payout == SettleAll(t, moves).payout - t.payout
    decreases |moves|
  {
    if moves != [] {
      SettleIsIncremental(Settle(s, moves[0]), Settle(t, moves[0]), moves[1..]);
    }
  }

  function Payout(s: Store, e: Event): nat {
    if e.Offence? && Unapplied(s, e.p).Some? then Unapplied(s, e.p).value.payout else 0
  }

  function TotalPayout(s: Store, es: seq<Event>): nat
    decreases |es|
  {
    if es == [] then 0 else Payout(s, es[0]) + TotalPayout(After(s, es[0]), es[1..])
  }

  function ChargedOver(s: Store, es: seq<Event>, whos: seq<Account>): nat {
    if whos == [] then 0 else TotalCharged(s, es, whos[0]) + ChargedOver(s, es, whos[1..])
  }

  lemma EventPays(s: Store, e: Event)
    ensures SettleAll(Settled(s.meta, [], 0), EventMoves(s, e)).meta == After(s, e).meta
    ensures SettleAll(Settled(s.meta, [], 0), EventMoves(s, e)).payout == Payout(s, e)
  {
    if e.ForgetStash? {
      assert [Move(e.who, Forget(e.numSpans))][1..] == [];
    } else if e.Offence? && RoundsToZero(e.p) {
      assert [Move(e.p.stash, Kick(e.p.slashEra, e.p.windowStart, e.p.now))][1..] == [];
    }
  }

  lemma {:induction false} RunPays(s: Store, es: seq<Event>)
    ensures SettleAll(Settled(s.meta, [], 0), AllMoves(s, es)).payout == TotalPayout(s, es)
    decreases |es|
  {
    if es != [] {
      var first, s' := EventMoves(s, es[0]), After(s, es[0]);
      EventPays(s, es[0]);
      RunPays(s', es[1..]);
      SettleInTwo(Settled(s.meta, [], 0), first, AllMoves(s', es[1..]));
      SettleIsIncremental(SettleAll(Settled(s.meta, [], 0), first), Settled(s'.meta, [], 0), AllMoves(s', es[1..]));
    }
  }

  /** Each stash's promises stay within its charges, so their sums do. */
  lemma {:induction false} PaidWithinCharged(s: Store, es: seq<Event>, whos: seq<Account>)
    requires forall i :: 0 <= i < |whos| ==> At(s.meta, whos[i]) == CLEAN
    ensures PaidOver(s.meta, AllMoves(s, es), whos) <= ChargedOver(s, es, whos)
  {
    if whos != [] {
      PaidWithinCharged(s, es, whos[1..]);
      RunProjects(s, es, whos[0]);
      PaidWithinSlashed(Steps(AllMoves(s, es), whos[0]));
    }
  }

  /**
   * Reporter rewards are capped over whole runs: all payouts promised since the metadata was clean are at most all
   * the slashes raised, whatever stashes were involved and whichever were cleared on the way.
   */
  lemma PayoutsWithinSlashes(s: Store, es: seq<Event>, whos: seq<Account>)
    requires Distinct(whos) && forall i :: 0 <= i < |whos| ==> At(s.meta, whos[i]) == CLEAN
    requires forall k :: 0 <= k < |AllMoves(s, es)| ==> AllMoves(s, es)[k].who in whos
    ensures TotalPayout(s, es) <= ChargedOver(s, es, whos)
  {
    RunPays(s, es);
    PayoutIsPaid(Settled(s.meta, [], 0), AllMoves(s, es), whos);
    PaidWithinCharged(s, es, whos);
  }

  /** No stored record, of any stash and after any run, has promised more than it slashed. */
  lemma StoredPayIsCovered(s: Store, es: seq<Event>, who: Account)
    requires PayIsCovered(At(s.meta, who))
    ensures PayIsCovered(At(RunEvents(s, es).meta, who))
  {
    RunProjects(s, es, who);
    RecordsStayCovered(At(s.meta, who), Steps(AllMoves(s, es), who));
  }

  /** Every slash among the moves pays at one proportion. */
  ghost predicate PayAt(moves: seq<Move>, proportion: Perbill) {
    forall k :: 0 <= k < |moves| && moves[k].step.Slash? ==> moves[k].step.proportion == proportion
  }

  lemma {:induction false} NominatorsPayAt(n: NominatorSlashes, p: SlashParams, prior: Perbill,
                                           others: seq<IndividualExposure>)
    ensures PayAt(NominatorMoves(n, p, prior, others), p.rewardProportion)
    decreases |others|
  {
    if others != [] {
      NominatorsPayAt(Grow(n, p, prior, others[0]), p, prior, others[1..]);
    }
  }

  lemma {:induction false} AllPayAt(s: Store, es: seq<Event>, proportion: Perbill)
    requires forall k :: 0 <= k < |es| && es[k].Offence? ==> es[k].p.rewardProportion == proportion
    ensures PayAt(AllMoves(s, es), proportion)
    decreases |es|
  {
    if es != [] {
      if es[0].Offence? && NewMaximum(s, es[0].p) {
        var p := es[0].p;
        var prior := PriorProportion(s.validatorSlash, p.slashEra, p.stash);
        NominatorsPayAt(s.nominatorSlash, p, prior, p.exposure.others);
      }
      AllPayAt(After(s, es[0]), es[1..], proportion);
    }
  }

  lemma {:induction false} StepsPayAt(moves: seq<Move>, who: Account, proportion: Perbill)
    requires PayAt(moves, proportion)
    ensures PaysAt(Steps(moves, who), proportion)
  {
    if moves != [] {
      var rest := moves[1..];
      assert forall k :: 0 <= k < |rest| ==> rest[k] == moves[k + 1];
      StepsPayAt(rest, who, proportion);
    }
  }

  /** With one reward proportion, no stored record of any stash ever promises more than that proportion of its slash. */
  lemma StoredPayIsCapped(s: Store, es: seq<Event>, who: Account, proportion: Perbill)
    requires PayIsCapped(At(s.meta, who), proportion)
    requires forall k :: 0 <= k < |es| && es[k].Offence? ==> es[k].p.rewardProportion == proportion
    ensures PayIsCapped(At(RunEvents(s, es).meta, who), proportion)
  {
    RunProjects(s, es, who);
    AllPayAt(s, es, proportion);
    StepsPayAt(AllMoves(s, es), who, proportion);
    PaidWithinProportion(At(s.meta, who), Steps(AllMoves(s, es), who), proportion);
  }

  // ----- What one report charges

  /** What a charge for an era adds to a stash: what it exceeds the record of the span the era lies in, if it does. */
  function AboveRecord(m: Stash, era: nat, windowStart: nat, amount: nat): nat {
    var span := m.Fetch(windowStart).EraSpan(era);
    if span.None? then 0 else Sub(amount, m.Record(span.value).slashed)
  }

  lemma ChargeIsAboveRecord(m: Stash, p: SlashParams, who: Account, amount: nat)
    ensures Apply(m, Charge(p, who, amount).step).slashed == AboveRecord(m, p.slashEra, p.windowStart, amount)
  {
    var step, span := Charge(p, who, amount).step, m.Fetch(p.windowStart).EraSpan(p.slashEra);
    StepMovesUp(m, step);
    StepEffect(m, step, if span.Some? then span.value else 0);
  }

  lemma {:induction false} SettledAt(s: Settled, moves: seq<Move>, k: nat)
    requires k < |moves| && forall i :: 0 <= i < k ==> moves[i].who != moves[k].who
    ensures SettleAll(s, moves).amounts[|s.amounts| + k]
         == (moves[k].who, Apply(At(s.meta, moves[k].who), moves[k].step).slashed)
    decreases k
  {
    var s' := Settle(s, moves[0]);
    if k == 0 {
      SettleKeepsAmounts(s', moves[1..]);
      assert SettleAll(s, moves).amounts[..|s.amounts| + 1] == s'.amounts;
      assert SettleAll(s, moves).amounts[|s.amounts|] == s'.amounts[|s.amounts|];
    } else {
      SettledAt(s', moves[1..], k - 1);
    }
  }

  /**
   * The pending slash of a report names the validator and charges it, for the span its offence era lies in, what its
   * share of the exposure exceeds the record of that span. There is one exactly for a new maximum that does not round
   * to nothing.
   */
  lemma PendingOwn(s: Store, p: SlashParams)
    ensures Unapplied(s, p).Some?
       <==> Times(p.slash, p.exposure.total) > 0 && PriorProportion(s.validatorSlash, p.slashEra, p.stash) < p.slash
    ensures Unapplied(s, p).Some? ==>
              && Unapplied(s, p).value.validator == p.stash
              && |Unapplied(s, p).value.others| == |p.exposure.others|
              && Unapplied(s, p).value.own
                 == AboveRecord(At(s.meta, p.stash), p.slashEra, p.windowStart, Times(p.slash, p.exposure.own))
  {
    if NewMaximum(s, p) {
      var amount := Times(p.slash, p.exposure.own);
      SettledAt(Settled(s.meta, [], 0), ReportMoves(s, p), 0);
      ChargeIsAboveRecord(At(s.meta, p.stash), p, p.stash, amount);
      MovesPerNominator(s.nominatorSlash, p, PriorProportion(s.validatorSlash, p.slashEra, p.stash), p.exposure.others);
    }
  }

  lemma {:induction false} MovesPerNominator(n: NominatorSlashes, p: SlashParams, prior: Perbill,
                                             others: seq<IndividualExposure>)
    ensures |NominatorMoves(n, p, prior, others)| == |others|
    ensures forall k :: 0 <= k < |others| ==> NominatorMoves(n, p, prior, others)[k].who == others[k].who
    decreases |others|
  {
    if others != [] {
      MovesPerNominator(Grow(n, p, prior, others[0]), p, prior, others[1..]);
    }
  }

  /** Nominator by nominator it charges what the era slash, as the report leaves it, exceeds the record of the span. */
  lemma PendingOthers(s: Store, p: SlashParams, k: nat)
    requires Unapplied(s, p).Some? && k < |p.exposure.others| == |Unapplied(s, p).value.others|
    requires forall i, j :: 0 <= i < j < |p.exposure.others| ==> p.exposure.others[i].who != p.exposure.others[j].who
    requires forall i :: 0 <= i < |p.exposure.others| ==> p.exposure.others[i].who != p.stash
    ensures var who := p.exposure.others[k].who;
            var eraSlash := EraSlash(Compute(s, p).nominatorSlash, p.slashEra, who);
            Unapplied(s, p).value.others[k]
            == (who, AboveRecord(At(s.meta, who), p.slashEra, p.windowStart, eraSlash))
  {
    var who := p.exposure.others[k].who;
    var eraSlash := EraSlash(Compute(s, p).nominatorSlash, p.slashEra, who);
    NominatorMove(s, p, k);
    SettledAt(Settled(s.meta, [], 0), ReportMoves(s, p), k + 1);
    ChargeIsAboveRecord(At(s.meta, who), p, who, eraSlash);
  }

  /** The move of nominator `k`, which is nobody else's before it. */
  lemma NominatorMove(s: Store, p: SlashParams, k: nat)
    requires Unapplied(s, p).Some? && k < |p.exposure.others|
    requires forall i, j :: 0 <= i < j < |p.exposure.others| ==> p.exposure.others[i].who != p.exposure.others[j].who
    requires forall i :: 0 <= i < |p.exposure.others| ==> p.exposure.others[i].who != p.stash
    ensures var who, moves := p.exposure.others[k].who, ReportMoves(s, p);
            && k + 1 < |moves|
            && moves[k + 1] == Charge(p, who, EraSlash(Compute(s, p).nominatorSlash, p.slashEra, who))
            && forall i :: 0 <= i < k + 1 ==> moves[i].who != who
  {
    var prior, others := PriorProportion(s.validatorSlash, p.slashEra, p.stash), p.exposure.others;
    MovesPerNominator(s.nominatorSlash, p, prior, others);
    NominatorsAreChargedEraSlash(s.nominatorSlash, p, prior, others, k);
  }

  lemma {:induction false} SettleSkips(s: Settled, moves: seq<Move>, who: Account)
    requires forall i :: 0 <= i < |moves| ==> moves[i].who != who
    ensures At(SettleAll(s, moves).meta, who) == At(s.meta, who)
    decreases |moves|
  {
    if moves != [] {
      SettleSkips(Settle(s, moves[0]), moves[1..], who);
    }
  }

  lemma {:induction false} SettledMetaAt(s: Settled, moves: seq<Move>, k: nat)
    requires k < |moves| && forall i :: 0 <= i < |moves| && i != k ==> moves[i].who != moves[k].who
    ensures At(SettleAll(s, moves).meta, moves[k].who) == Apply(At(s.meta, moves[k].who), moves[k].step).stash
    decreases k
  {
    if k == 0 {
      SettleSkips(Settle(s, moves[0]), moves[1..], moves[0].who);
    } else {
      SettledMetaAt(Settle(s, moves[0]), moves[1..], k - 1);
    }
  }

  /** A report about an era in the ongoing span of its validator ends that span, even when it rounds to nothing. */
  lemma ReportEndsSpan(s: Store, p: SlashParams, era: nat)
    requires RoundsToZero(p) || Unapplied(s, p).Some?
    requires forall i :: 0 <= i < |p.exposure.others| ==> p.exposure.others[i].who != p.stash
    requires At(s.meta, p.stash).Fetch(p.windowStart).lastStart <= p.slashEra <= p.now < era && p.windowStart <= era
    ensures var m := At(Compute(s, p).meta, p.stash);
            m.spans.Some? && m.spans.value.EraSpan(era) == Some(At(s.meta, p.stash).Fetch(p.windowStart).index + 1)
  {
    ValidatorMovesOnce(s, p);
    SettledMetaAt(Settled(s.meta, [], 0), ReportMoves(s, p), 0);
    ReportEndsOngoing(At(s.meta, p.stash), ReportMoves(s, p)[0].step, era);
  }

  /** The validator's own charge or kick comes first, and no nominator's charge is its own. */
  lemma ValidatorMovesOnce(s: Store, p: SlashParams)
    requires RoundsToZero(p) || Unapplied(s, p).Some?
    requires forall i :: 0 <= i < |p.exposure.others| ==> p.exposure.others[i].who != p.stash
    ensures var moves := ReportMoves(s, p);
            && moves != [] && moves[0].who == p.stash && !moves[0].step.Forget?
            && moves[0].step.era == p.slashEra && moves[0].step.windowStart == p.windowStart
            && moves[0].step.now == p.now
            && forall i :: 0 < i < |moves| ==> moves[i].who != p.stash
  {
    if Unapplied(s, p).Some? {
      var prior := PriorProportion(s.validatorSlash, p.slashEra, p.stash);
      MovesPerNominator(s.nominatorSlash, p, prior, p.exposure.others);
    }
  }

  // ----- One era: the slash of a nominator telescopes

  lemma {:induction false} OthersKeepSlash(n: NominatorSlashes, p: SlashParams, prior: Perbill,
                                           others: seq<IndividualExposure>, who: Account)
    requires forall i :: 0 <= i < |others| ==> others[i].who != who
    ensures EraSlash(GrowAll(n, p, prior, others), p.slashEra, who) == EraSlash(n, p.slashEra, who)
    decreases |others|
  {
    if others != [] {
      OthersKeepSlash(Grow(n, p, prior, others[0]), p, prior, others[1..], who);
    }
  }

  /** Each nominator is charged its whole era slash as the report leaves it, not the growth alone. */
  lemma {:induction false} NominatorsAreChargedEraSlash(n: NominatorSlashes, p: SlashParams, prior: Perbill,
                                                        others: seq<IndividualExposure>, k: nat)
    requires k < |others| && forall i, j :: 0 <= i < j < |others| ==> others[i].who != others[j].who
    ensures |NominatorMoves(n, p, prior, others)| == |others|
    ensures NominatorMoves(n, p, prior, others)[k]
         == Charge(p, others[k].who, EraSlash(GrowAll(n, p, prior, others), p.slashEra, others[k].who))
    decreases |others|
  {
    var n' := Grow(n, p, prior, others[0]);
    if k == 0 {
      OthersKeepSlash(n', p, prior, others[1..], others[0].who);
      if |others| > 1 {
        NominatorsAreChargedEraSlash(n', p, prior, others[1..], 0);
      }
    } else {
      NominatorsAreChargedEraSlash(n', p, prior, others[1..], k - 1);
    }
  }

  /** What a proportion costs `who` behind one validator. */
  function Owed(p: Perbill, others: seq<IndividualExposure>, who: Account): nat {
    if others == [] then 0
    else (if others[0].who == who then Times(p, others[0].value) else 0) + Owed(p, others[1..], who)
  }

  /** The same over all validators of the era, at the proportions on record. */
  function OwedOnRecord(v: ValidatorSlashes, era: nat, vals: seq<Account>, expo: map<Account, Exposure>,
                        who: Account): nat
    requires forall i :: 0 <= i < |vals| ==> vals[i] in expo
  {
    if vals == [] then 0
    else Owed(PriorProportion(v, era, vals[0]), expo[vals[0]].others, who) + OwedOnRecord(v, era, vals[1..], expo, who)
  }

  /** The largest proportion reported for a validator in an era, dropped reports included. */
  function LargestProportion(es: seq<Event>, era: nat, val: Account): Perbill {
    if es == [] then 0
    else
      var rest := LargestProportion(es[1..], era, val);
      if es[0].Offence? && es[0].p.slashEra == era && es[0].p.stash == val && rest < es[0].p.slash
      then es[0].p.slash else rest
  }

  function OwedAtLargest(es: seq<Event>, era: nat, vals: seq<Account>, expo: map<Account, Exposure>, who: Account): nat
    requires forall i :: 0 <= i < |vals| ==> vals[i] in expo
  {
    if vals == [] then 0
    else Owed(LargestProportion(es, era, vals[0]), expo[vals[0]].others, who)
         + OwedAtLargest(es, era, vals[1..], expo, who)
  }

  /** The era's validators, each with one fixed exposure, and reports that fit it. */
  ghost predicate FixedExposures(es: seq<Event>, era: nat, vals: seq<Account>, expo: map<Account, Exposure>) {
    && (forall i :: 0 <= i < |vals| ==> vals[i] in expo && expo[vals[i]].Valid())
    && Distinct(vals)
    && (forall k :: 0 <= k < |es| ==> FitsExposures(es[k], era, vals, expo))
  }

  ghost predicate FitsExposures(e: Event, era: nat, vals: seq<Account>, expo: map<Account, Exposure>) {
    && (e.ForgetEra? ==> e.era != era)
    && (e.Offence? && e.p.slashEra == era ==> e.p.stash in vals && e.p.stash in expo && e.p.exposure == expo[e.p.stash])
  }

  lemma {:induction false} GrowAllOwes(n: NominatorSlashes, p: SlashParams, prior: Perbill,
                                       others: seq<IndividualExposure>, era: nat, who: Account)
    requires prior <= p.slash
    ensures EraSlash(GrowAll(n, p, prior, others), era, who)
         == EraSlash(n, era, who)
            + if p.slashEra == era then Owed(p.slash, others, who) - Owed(prior, others, who) else 0
    decreases |others|
  {
    if others != [] {
      TimesMonotone(prior, others[0].value, p.slash, others[0].value);
      GrowAllOwes(Grow(n, p, prior, others[0]), p, prior, others[1..], era, who);
    }
  }

  lemma {:induction false} RecordUpdate(v: ValidatorSlashes, era: nat, vals: seq<Account>, expo: map<Account, Exposure>,
                                        who: Account, val: Account, p: Perbill, own: nat)
    requires forall i :: 0 <= i < |vals| ==> vals[i] in expo
    requires Distinct(vals)
    ensures OwedOnRecord(v[(era, val) := (p, own)], era, vals, expo, who)
         == OwedOnRecord(v, era, vals, expo, who)
            + if val in vals
              then Owed(p, expo[val].others, who) - Owed(PriorProportion(v, era, val), expo[val].others, who)
              else 0
  {
    if vals != [] {
      RecordUpdate(v, era, vals[1..], expo, who, val, p, own);
    }
  }

  lemma {:induction false} OtherRecords(v: ValidatorSlashes, w: ValidatorSlashes, era: nat, vals: seq<Account>,
                                        expo: map<Account, Exposure>, who: Account)
    requires forall i :: 0 <= i < |vals| ==> vals[i] in expo
    requires forall i :: 0 <= i < |vals| ==> PriorProportion(v, era, vals[i]) == PriorProportion(w, era, vals[i])
    ensures OwedOnRecord(v, era, vals, expo, who) == OwedOnRecord(w, era, vals, expo, who)
  {
    if vals != [] {
      OtherRecords(v, w, era, vals[1..], expo, who);
    }
  }

  /** Each event moves the stored slash of a nominator exactly as it moves what the records say it owes. */
  lemma EventTelescopes(s: Store, e: Event, era: nat, vals: seq<Account>, expo: map<Account, Exposure>, who: Account)
    requires FixedExposures([e], era, vals, expo)
    ensures EraSlash(After(s, e).nominatorSlash, era, who) - EraSlash(s.nominatorSlash, era, who)
         == OwedOnRecord(After(s, e).validatorSlash, era, vals, expo, who)
            - OwedOnRecord(s.validatorSlash, era, vals, expo, who)
  {
    var s' := After(s, e);
    assert FitsExposures([e][0], era, vals, expo);
    if e.Offence? && NewMaximum(s, e.p) {
      var p := e.p;
      var prior := PriorProportion(s.validatorSlash, p.slashEra, p.stash);
      GrowAllOwes(s.nominatorSlash, p, prior, p.exposure.others, era, who);
      if p.slashEra == era {
        RecordUpdate(s.validatorSlash, era, vals, expo, who, p.stash, p.slash, Times(p.slash, p.exposure.own));
      } else {
        OtherRecords(s'.validatorSlash, s.validatorSlash, era, vals, expo, who);
      }
    } else {
      OtherRecords(s'.validatorSlash, s.validatorSlash, era, vals, expo, who);
    }
  }

  lemma {:induction false} RunTelescopes(s: Store, es: seq<Event>, era: nat, vals: seq<Account>,
                                         expo: map<Account, Exposure>, who: Account)
    requires FixedExposures(es, era, vals, expo)
    ensures EraSlash(RunEvents(s, es).nominatorSlash, era, who) - EraSlash(s.nominatorSlash, era, who)
         == OwedOnRecord(RunEvents(s, es).validatorSlash, era, vals, expo, who)
            - OwedOnRecord(s.validatorSlash, era, vals, expo, who)
    decreases |es|
  {
    if es != [] {
      EventTelescopes(s, es[0], era, vals, expo, who);
      RunTelescopes(After(s, es[0]), es[1..], era, vals, expo, who);
    }
  }

  /** A proportion is on record only if it slashes something. */
  predicate Bites(p: Perbill, total: nat) {
    p == 0 || Times(p, total) > 0
  }

  /** A report moves the record exactly when it exceeds it and slashes something. */
  lemma RecordAfter(s: Store, e: Event, era: nat, val: Account, total: nat)
    requires e.Offence? && e.p.slashEra == era && e.p.stash == val ==> e.p.exposure.total == total
    requires e.ForgetEra? ==> e.era != era
    ensures var prior := PriorProportion(s.validatorSlash, era, val);
            PriorProportion(After(s, e).validatorSlash, era, val)
            == if e.Offence? && e.p.slashEra == era && e.p.stash == val
                  && Times(e.p.slash, total) > 0 && prior < e.p.slash
               then e.p.slash else prior
  {
  }

  /** The record ends at the largest of all reports, unless all of them round to nothing. */
  lemma {:induction false} RecordIsLargest(s: Store, es: seq<Event>, era: nat, vals: seq<Account>,
                                           expo: map<Account, Exposure>, val: Account)
    requires FixedExposures(es, era, vals, expo) && val in vals
    requires Bites(PriorProportion(s.validatorSlash, era, val), expo[val].total)
    ensures var prior, largest := PriorProportion(s.validatorSlash, era, val), LargestProportion(es, era, val);
            PriorProportion(RunEvents(s, es).validatorSlash, era, val)
            == if Times(largest, expo[val].total) > 0 && prior < largest then largest else prior
    decreases |es|
  {
    if es != [] {
      assert FitsExposures(es[0], era, vals, expo);
      var s', total := After(s, es[0]), expo[val].total;
      RecordAfter(s, es[0], era, val, total);
      RecordIsLargest(s', es[1..], era, vals, expo, val);
      if es[0].Offence? && es[0].p.slashEra == era && es[0].p.stash == val {
        var p, rest := es[0].p.slash, LargestProportion(es[1..], era, val);
        if rest < p {
          TimesMonotone(rest, total, p, total);
        } else {
          TimesMonotone(p, total, rest, total);
        }
      }
    }
  }

  lemma {:induction false} RoundedOffOwesNothing(p: Perbill, e: Exposure, who: Account)
    requires e.Valid() && Times(p, e.total) == 0
    ensures Owed(p, e.others, who) == 0
    decreases |e.others|
  {
    if e.others != [] {
      TimesMonotone(p, e.others[0].value, p, e.total);
      RoundedOffOwesNothing(p, e.(others := e.others[1..]), who);
    }
  }

  lemma {:induction false} OwedOnFinalRecord(s: Store, es: seq<Event>, era: nat, all: seq<Account>, vals: seq<Account>,
                                             expo: map<Account, Exposure>, who: Account)
    requires FixedExposures(es, era, all, expo)
    requires forall i :: 0 <= i < |vals| ==> vals[i] in all
    requires forall v :: (era, v) !in s.validatorSlash
    ensures OwedOnRecord(RunEvents(s, es).validatorSlash, era, vals, expo, who)
         == OwedAtLargest(es, era, vals, expo, who)
    ensures OwedOnRecord(s.validatorSlash, era, vals, expo, who) == 0
  {
    if vals != [] {
      var val := vals[0];
      OwedOnFinalRecord(s, es, era, all, vals[1..], expo, who);
      RecordIsLargest(s, es, era, all, expo, val);
      RoundedOffOwesNothing(0, expo[val], who);
      if Times(LargestProportion(es, era, val), expo[val].total) == 0 {
        RoundedOffOwesNothing(LargestProportion(es, era, val), expo[val], who);
      }
    }
  }

  /**
   * Nominator slashes telescope: whatever the order and number of reports of an era, and whatever else happens,
   * the stored slash of a nominator is the sum over validators of the largest proportion reported times its exposure.
   */
  lemma NominatorSlashTelescopes(s: Store, es: seq<Event>, era: nat, vals: seq<Account>,
                                 expo: map<Account, Exposure>, who: Account)
    requires FixedExposures(es, era, vals, expo)
    requires forall v :: (era, v) !in s.validatorSlash
    requires (era, who) !in s.nominatorSlash
    ensures EraSlash(RunEvents(s, es).nominatorSlash, era, who) == OwedAtLargest(es, era, vals, expo, who)
  {
    RunTelescopes(s, es, era, vals, expo, who);
    OwedOnFinalRecord(s, es, era, vals, vals, expo, who);
  }

  lemma {:induction false} RunEventsInTwo(s: Store, a: seq<Event>, b: seq<Event>)
    ensures RunEvents(s, a + b) == RunEvents(RunEvents(s, a), b)
    decreases |a|
  {
    if a == [] {
      assert a + b == b;
    } else {
      var s', rest := After(s, a[0]), a[1..] + b;
      assert (a + b)[0] == a[0] && (a + b)[1..] == rest;
      assert RunEvents(s, a + b) == RunEvents(s', rest);
      RunEventsInTwo(s', a[1..], b);
    }
  }

  /**
   * Clearing an era starts its slashes afresh: whatever was stored and reported before, from then on the slash of a
   * nominator is what the reports after the clear make it.
   */
  lemma ClearedEraTelescopesAfresh(s: Store, before: seq<Event>, es: seq<Event>, era: nat, vals: seq<Account>,
                                   expo: map<Account, Exposure>, who: Account)
    requires FixedExposures(es, era, vals, expo)
    ensures EraSlash(RunEvents(s, before + [ForgetEra(era)] + es).nominatorSlash, era, who)
         == OwedAtLargest(es, era, vals, expo, who)
  {
    var first := RunEvents(s, before);
    RunEventsInTwo(s, before + [ForgetEra(era)], es);
    RunEventsInTwo(s, before, [ForgetEra(era)]);
    assert [ForgetEra(era)][1..] == [];
    assert RunEvents(first, [ForgetEra(era)]) == ClearEra(first, era);
    NominatorSlashTelescopes(ClearEra(first, era), es, era, vals, expo, who);
  }

  lemma ClearedMoves(s: Store, era: nat, p: SlashParams)
    requires p.slashEra != era
    ensures NewMaximum(ClearEra(s, era), p) <==> NewMaximum(s, p)
    ensures ReportMoves(ClearEra(s, era), p) == ReportMoves(s, p)
  {
    var prior := PriorProportion(s.validatorSlash, p.slashEra, p.stash);
    assert PriorProportion(ClearEra(s, era).validatorSlash, p.slashEra, p.stash) == prior;
    MovesIgnoreClear(era, p, prior, p.exposure.others, s.nominatorSlash);
  }

  /** Clearing an era touches no other: a report about another era is judged and charged as if it had not happened. */
  lemma ClearedEraLeavesOthers(s: Store, era: nat, p: SlashParams)
    requires p.slashEra != era
    ensures Unapplied(ClearEra(s, era), p) == Unapplied(s, p)
  {
    ClearedMoves(s, era, p);
  }

  lemma {:induction false} MovesIgnoreClear(era: nat, p: SlashParams, prior: Perbill,
                                            others: seq<IndividualExposure>, n: NominatorSlashes)
    requires p.slashEra != era
    ensures NominatorMoves(WithoutEra(n, era), p, prior, others) == NominatorMoves(n, p, prior, others)
    decreases |others|
  {
    if others != [] {
      var n' := Grow(n, p, prior, others[0]);
      assert Grow(WithoutEra(n, era), p, prior, others[0]) == WithoutEra(n', era);
      MovesIgnoreClear(era, p, prior, others[1..], n');
    }
  }
}

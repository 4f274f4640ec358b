/**
 * The staking ledger: a slash taken from the active balance and the unlocking chunks in priority order,
 * rounded up, capped, with dust swept along; and the two ways chunks leave the ledger.
 */
module Staking {
  import opened Base
  import opened PerThings

  datatype Chunk = Chunk(value: nat, era: nat)

  function Values(chunks: seq<Chunk>): (v: seq<nat>)
    ensures |v| == |chunks|
    ensures forall i :: 0 <= i < |chunks| ==> v[i] == chunks[i].value
  {
    seq(|chunks|, i requires 0 <= i < |chunks| => chunks[i].value)
  }

  /** `Some(ratio)` for a proportional slash. */
  type Mode = Option<Perquintill>

  function Wanted(target: nat, remaining: nat, mode: Mode): nat {
    Min(Min(if mode.Some? then MulCeil(mode.value, target) else remaining, target), remaining)
  }

  /** What one target keeps: less than the minimum balance is swept too. */
  function Left(target: nat, remaining: nat, mode: Mode, minimum: nat): (left: nat)
    ensures left <= target
  {
    var left := target - Wanted(target, remaining, mode);
    if left < minimum then 0 else left
  }

  function Rest(target: nat, remaining: nat, mode: Mode, minimum: nat): nat {
    Sub(remaining, target - Left(target, remaining, mode, minimum))
  }

  /** The targets after a slash walks them in order and stops once nothing remains. */
  function Cut(ts: seq<nat>, remaining: nat, mode: Mode, minimum: nat): (cut: seq<nat>)
    ensures |cut| == |ts|
  {
    if ts == [] || remaining == 0 then ts
    else [Left(ts[0], remaining, mode, minimum)] + Cut(ts[1..], Rest(ts[0], remaining, mode, minimum), mode, minimum)
  }

  /** What remains to be slashed after the first `k` targets. */
  function RestAfter(ts: seq<nat>, k: nat, remaining: nat, mode: Mode, minimum: nat): nat
    requires k <= |ts|
  {
    if k == 0 || remaining == 0 then remaining
    else RestAfter(ts[1..], k - 1, Rest(ts[0], remaining, mode, minimum), mode, minimum)
  }

  lemma {:induction false} CutAt(ts: seq<nat>, k: nat, remaining: nat, mode: Mode, minimum: nat)
    requires k < |ts|
    ensures var r := RestAfter(ts, k, remaining, mode, minimum);
            && Cut(ts, remaining, mode, minimum)[k] == (if r == 0 then ts[k] else Left(ts[k], r, mode, minimum))
            && RestAfter(ts, k + 1, remaining, mode, minimum) == if r == 0 then 0 else Rest(ts[k], r, mode, minimum)
    decreases k
  {
    if remaining != 0 {
      var rest := Rest(ts[0], remaining, mode, minimum);
      if k > 0 {
        CutAt(ts[1..], k - 1, rest, mode, minimum);
      }
    }
  }

  /** Some target exceeds what remains, and what its share leaves of it is dust. */
  predicate SweepsDust(ts: seq<nat>, remaining: nat, mode: Mode, minimum: nat) {
    && ts != []
    && remaining > 0
    && (|| (ts[0] > remaining && ts[0] - Wanted(ts[0], remaining, mode) < minimum)
        || SweepsDust(ts[1..], Rest(ts[0], remaining, mode, minimum), mode, minimum))
  }

  /** The cut exceeds the amount exactly when dust is swept, and then by less than the minimum balance. */
  lemma {:induction false} CutOvershoot(ts: seq<nat>, remaining: nat, mode: Mode, minimum: nat)
    ensures var taken := Sum(ts) - Sum(Cut(ts, remaining, mode, minimum));
            && taken >= 0
            && (taken > remaining <==> SweepsDust(ts, remaining, mode, minimum))
            && (taken > remaining ==> taken < remaining + minimum)
    ensures var left := RestAfter(ts, |ts|, remaining, mode, minimum);
            left > 0 ==> Sum(ts) - Sum(Cut(ts, remaining, mode, minimum)) == remaining - left
    ensures RestAfter(ts, |ts|, remaining, mode, minimum) == 0 ==>
              Sum(ts) - Sum(Cut(ts, remaining, mode, minimum)) >= remaining
  {
    if ts != [] && remaining > 0 {
      CutOvershoot(ts[1..], Rest(ts[0], remaining, mode, minimum), mode, minimum);
      assert Cut(ts, remaining, mode, minimum)[1..]
          == Cut(ts[1..], Rest(ts[0], remaining, mode, minimum), mode, minimum);
    }
  }

  /** A slash that takes all it can from each target leaves nothing to take unless it runs out of targets. */
  lemma {:induction false} GreedyCutSuffices(ts: seq<nat>, k: nat, remaining: nat, mode: Mode, minimum: nat)
    requires k <= |ts|
    requires mode.None? || mode.value == QUINTILLION
    ensures RestAfter(ts, k, remaining, mode, minimum) == Sub(remaining, Sum(ts[..k]))
    ensures RestAfter(ts, |ts|, remaining, mode, minimum) > 0 ==> Sum(Cut(ts, remaining, mode, minimum)) == 0
    decreases |ts|
  {
    if ts != [] && remaining > 0 {
      var rest := Rest(ts[0], remaining, mode, minimum);
      assert Wanted(ts[0], remaining, mode) == Min(ts[0], remaining);
      GreedyCutSuffices(ts[1..], if k > 0 then k - 1 else 0, rest, mode, minimum);
      assert k > 0 ==> ts[..k][1..] == ts[1..][..k - 1];
      var cut := Cut(ts, remaining, mode, minimum);
      assert cut[1..] == Cut(ts[1..], rest, mode, minimum);
      assert rest > 0 ==> cut[0] == 0;
      assert RestAfter(ts, |ts|, remaining, mode, minimum) == RestAfter(ts[1..], |ts[1..]|, rest, mode, minimum);
    }
  }

  function SumOfShares(ratio: Perquintill, ts: seq<nat>): nat {
    if ts == [] then 0 else MulCeil(ratio, ts[0]) + SumOfShares(ratio, ts[1..])
  }

  lemma {:induction false} SharesCover(ratio: Perquintill, ts: seq<nat>)
    ensures SumOfShares(ratio, ts) * QUINTILLION >= ratio * Sum(ts)
  {
    if ts != [] {
      SharesCover(ratio, ts[1..]);
      assert ratio * Sum(ts) == ratio * ts[0] + ratio * Sum(ts[1..]);
    }
  }

  lemma {:induction false} SharesAreTaken(ts: seq<nat>, k: nat, remaining: nat, ratio: Perquintill, minimum: nat)
    requires k <= |ts|
    ensures var left := RestAfter(ts, k, remaining, Some(ratio), minimum);
            left == 0 || left + SumOfShares(ratio, ts[..k]) <= remaining
    decreases k
  {
    if k > 0 && remaining > 0 {
      MulCeilAtMost(ratio, ts[0]);
      SharesAreTaken(ts[1..], k - 1, Rest(ts[0], remaining, Some(ratio), minimum), ratio, minimum);
      assert ts[..k][1..] == ts[1..][..k - 1];
    }
  }

  /** Rounding up suffices: a proportional slash that fits its first `m` targets is spent within them. */
  lemma ProportionalCutSuffices(ts: seq<nat>, m: nat, amount: nat, minimum: nat)
    requires m <= |ts| && 0 < amount <= Sum(ts[..m])
    ensures RestAfter(ts, m, amount, Some(RatioUp(amount, Sum(ts[..m]))), minimum) == 0
  {
    var affected := Sum(ts[..m]);
    var ratio := RatioUp(amount, affected);
    RatioUpIsLeast(amount, affected);
    SharesCover(ratio, ts[..m]);
    SharesAreTaken(ts, m, amount, ratio, minimum);
  }

  lemma {:induction false} RestStaysSpent(ts: seq<nat>, k: nat, j: nat, remaining: nat, mode: Mode, minimum: nat)
    requires k <= j <= |ts| && RestAfter(ts, k, remaining, mode, minimum) == 0
    ensures RestAfter(ts, j, remaining, mode, minimum) == 0
    decreases k
  {
    if k > 0 && remaining > 0 {
      RestStaysSpent(ts[1..], k - 1, j - 1, Rest(ts[0], remaining, mode, minimum), mode, minimum);
    }
  }

  /** What a target loses when enough remains to take all of its share: everything, if the share leaves dust. */
  function Full(t: nat, mode: Mode, minimum: nat): (full: nat)
    ensures full <= t
  {
    var share := if mode.Some? then Min(MulCeil(mode.value, t), t) else t;
    if t - share < minimum then t else share
  }

  function FullSum(ts: seq<nat>, mode: Mode, minimum: nat): nat {
    if ts == [] then 0 else Full(ts[0], mode, minimum) + FullSum(ts[1..], mode, minimum)
  }

  /** Once the targets before `k` have lost in full, what remains is less than target `k` and leaves dust of it. */
  predicate FallsShort(ts: seq<nat>, k: nat, amount: nat, mode: Mode, minimum: nat)
    requires k < |ts|
  {
    var before := FullSum(ts[..k], mode, minimum);
    before < amount < before + ts[k] && ts[k] - Wanted(ts[k], amount - before, mode) < minimum
  }

  lemma FallsShortTail(ts: seq<nat>, k: nat, amount: nat, mode: Mode, minimum: nat)
    requires 0 < k < |ts|
    ensures var full := Full(ts[0], mode, minimum);
            FallsShort(ts, k, amount, mode, minimum)
            <==> full < amount && FallsShort(ts[1..], k - 1, amount - full, mode, minimum)
  {
    assert ts[..k][1..] == ts[1..][..k - 1];
  }

  lemma FirstTarget(t: nat, amount: nat, mode: Mode, minimum: nat)
    requires amount > 0 && !(t > amount && t - Wanted(t, amount, mode) < minimum)
    ensures Rest(t, amount, mode, minimum) == Sub(amount, Full(t, mode, minimum))
  {
  }

  /**
   * Dust is swept, with or without a proportion, exactly when the amount falls short of some target: a condition on
   * the targets and their shares alone.
   */
  lemma {:induction false} SweepsDustIff(ts: seq<nat>, amount: nat, mode: Mode, minimum: nat)
    requires amount > 0
    ensures SweepsDust(ts, amount, mode, minimum)
       <==> exists k :: 0 <= k < |ts| && FallsShort(ts, k, amount, mode, minimum)
  {
    if ts != [] {
      var full, here := Full(ts[0], mode, minimum), ts[0] > amount && ts[0] - Wanted(ts[0], amount, mode) < minimum;
      assert FallsShort(ts, 0, amount, mode, minimum) <==> here;
      if !here {
        FirstTarget(ts[0], amount, mode, minimum);
        forall k | 0 < k < |ts|
          ensures FallsShort(ts, k, amount, mode, minimum)
             <==> full < amount && FallsShort(ts[1..], k - 1, amount - full, mode, minimum)
        {
          FallsShortTail(ts, k, amount, mode, minimum);
        }
        if full < amount {
          SweepsDustIff(ts[1..], amount - full, mode, minimum);
          if SweepsDust(ts[1..], amount - full, mode, minimum) {
            var k :| 0 <= k < |ts[1..]| && FallsShort(ts[1..], k, amount - full, mode, minimum);
            assert FallsShort(ts, k + 1, amount, mode, minimum);
          }
        }
      }
    }
  }

  lemma {:induction false} PlainFullSum(ts: seq<nat>, minimum: nat)
    ensures FullSum(ts, None, minimum) == Sum(ts)
  {
    if ts != [] {
      PlainFullSum(ts[1..], minimum);
    }
  }

  /** Without a proportion: exactly when the amount stops inside a target, less than the minimum short of its end. */
  lemma PlainCutSweepsDust(ts: seq<nat>, amount: nat, minimum: nat)
    requires amount > 0
    ensures SweepsDust(ts, amount, None, minimum)
       <==> exists k :: 0 <= k < |ts| && Sum(ts[..k]) < amount < Sum(ts[..k]) + ts[k] < amount + minimum
  {
    SweepsDustIff(ts, amount, None, minimum);
    forall k | 0 <= k < |ts|
      ensures FallsShort(ts, k, amount, None, minimum)
         <==> Sum(ts[..k]) < amount < Sum(ts[..k]) + ts[k] < amount + minimum
    {
      PlainFullSum(ts[..k], minimum);
    }
  }

  // ----- The ledger

  datatype Ledger = Ledger(total: nat, active: nat, unlocking: seq<Chunk>) {
    predicate Balanced() {
      total == active + Sum(Values(unlocking))
    }
  }

  /** The first chunk unlocking at or after `start`, or the number of chunks when there is none. */
  function FirstSlashable(chunks: seq<Chunk>, start: nat): (i: nat)
    ensures i <= |chunks|
    ensures forall j :: 0 <= j < i ==> chunks[j].era < start
    ensures i < |chunks| ==> chunks[i].era >= start
  {
    if chunks == [] || chunks[0].era >= start then 0 else 1 + FirstSlashable(chunks[1..], start)
  }

  function Reversed(s: seq<nat>): (r: seq<nat>)
    ensures |r| == |s|
    ensures forall i :: 0 <= i < |s| ==> r[i] == s[|s| - 1 - i]
  {
    if s == [] then [] else Reversed(s[1..]) + [s[0]]
  }

  /** Where chunk `i` comes in the priority order. */
  function Rank(i: nat, first: nat, n: nat): nat
    requires i < n
  {
    if i >= first then i - first else n - 1 - i
  }

  /** The chunk at place `k` of the priority order: the slashable ones oldest first, then the earlier newest first. */
  function IndexAt(k: nat, first: nat, n: nat): (i: nat)
    requires k < n && first <= n
    ensures i < n && Rank(i, first, n) == k
  {
    if k < n - first then first + k else n - 1 - k
  }

  function Ordered(values: seq<nat>, first: nat): (r: seq<nat>)
    requires first <= |values|
    ensures |r| == |values|
  {
    seq(|values|, k requires 0 <= k < |values| => values[IndexAt(k, first, |values|)])
  }

  function Targets(l: Ledger, first: nat): seq<nat>
    requires first <= |l.unlocking|
  {
    [l.active] + Ordered(Values(l.unlocking), first)
  }

  /** What the slash is proportional to: the active balance and the slashable chunks. */
  function Affected(l: Ledger, first: nat): nat
    requires first <= |l.unlocking|
  {
    l.active + Sum(Values(l.unlocking)[first..])
  }

  function ModeOf(l: Ledger, amount: nat, first: nat): Mode
    requires first <= |l.unlocking|
  {
    if first < |l.unlocking| then Some(RatioUp(amount, Affected(l, first))) else None
  }

  function NonZero(chunks: seq<Chunk>): seq<Chunk> {
    if chunks == [] then []
    else if chunks[0].value == 0 then NonZero(chunks[1..])
    else [chunks[0]] + NonZero(chunks[1..])
  }

  function Rewritten(chunks: seq<Chunk>, first: nat, cut: seq<nat>): (r: seq<Chunk>)
    requires |cut| == |chunks| + 1
    ensures |r| == |chunks|
  {
    seq(|chunks|, i requires 0 <= i < |chunks| => chunks[i].(value := cut[1 + Rank(i, first, |chunks|)]))
  }

  /** The targets after the slash, in priority order. */
  function CutOf(l: Ledger, amount: nat, minimum: nat, start: nat): seq<nat> {
    var first := FirstSlashable(l.unlocking, start);
    Cut(Targets(l, first), amount, ModeOf(l, amount, first), minimum)
  }

  /** The ledger after slashing `amount`, where chunks unlocking from era `start` on are slashable. */
  function SlashLedger(l: Ledger, amount: nat, minimum: nat, start: nat): Ledger {
    if amount == 0 then l
    else
      var first, cut := FirstSlashable(l.unlocking, start), CutOf(l, amount, minimum, start);
      Ledger(Sub(l.total, Sub(Sum(Targets(l, first)), Sum(cut))),
             cut[0],
             NonZero(Rewritten(l.unlocking, first, cut)))
  }

  lemma {:induction false} SumReversed(s: seq<nat>)
    ensures Sum(Reversed(s)) == Sum(s)
  {
    if s != [] {
      SumReversed(s[1..]);
      SumAppend(Reversed(s[1..]), [s[0]]);
    }
  }

  lemma OrderedIsLateThenEarly(values: seq<nat>, first: nat)
    requires first <= |values|
    ensures Ordered(values, first) == values[first..] + Reversed(values[..first])
  {
    forall k | 0 <= k < |values| ensures Ordered(values, first)[k] == (values[first..] + Reversed(values[..first]))[k] {
    }
  }

  lemma SumOrdered(values: seq<nat>, first: nat)
    requires first <= |values|
    ensures Sum(Ordered(values, first)) == Sum(values)
  {
    var early, late := values[..first], values[first..];
    assert values == early + late;
    SumAppend(early, late);
    SumReversed(early);
    SumAppend(late, Reversed(early));
    OrderedIsLateThenEarly(values, first);
  }

  lemma {:induction false} SumNonZero(chunks: seq<Chunk>)
    ensures Sum(Values(NonZero(chunks))) == Sum(Values(chunks))
  {
    if chunks != [] {
      SumNonZero(chunks[1..]);
      assert Values(chunks)[1..] == Values(chunks[1..]);
      if chunks[0].value != 0 {
        assert Values(NonZero(chunks))[1..] == Values(NonZero(chunks[1..]));
      }
    }
  }

  lemma SumRewritten(chunks: seq<Chunk>, first: nat, cut: seq<nat>)
    requires |cut| == |chunks| + 1 && first <= |chunks|
    ensures Sum(Values(Rewritten(chunks, first, cut))) == Sum(cut[1..])
  {
    var values := Values(Rewritten(chunks, first, cut));
    var n := |chunks|;
    SumOrdered(values, first);
    assert Ordered(values, first) == cut[1..];
  }

  lemma SumTargets(l: Ledger, first: nat)
    requires first <= |l.unlocking|
    ensures Sum(Targets(l, first)) == l.active + Sum(Values(l.unlocking))
    ensures Sum(Targets(l, first)[..|l.unlocking| - first + 1]) == Affected(l, first)
  {
    var ts := Targets(l, first);
    assert ts[1..] == Ordered(Values(l.unlocking), first);
    SumOrdered(Values(l.unlocking), first);
    assert ts[..|l.unlocking| - first + 1][1..] == Values(l.unlocking)[first..];
  }

  /** Nothing is left to take unless the ledger is empty: what fits is taken in full. */
  lemma SlashSuffices(l: Ledger, amount: nat, minimum: nat, start: nat)
    requires amount > 0
    ensures var first := FirstSlashable(l.unlocking, start);
            var ts, mode := Targets(l, first), ModeOf(l, amount, first);
            && (amount <= Affected(l, first) ==> RestAfter(ts, |l.unlocking| - first + 1, amount, mode, minimum) == 0)
            && (RestAfter(ts, |ts|, amount, mode, minimum) > 0 ==> Sum(CutOf(l, amount, minimum, start)) == 0)
  {
    var first := FirstSlashable(l.unlocking, start);
    var ts, mode := Targets(l, first), ModeOf(l, amount, first);
    var m := |l.unlocking| - first + 1;
    SumTargets(l, first);
    if mode.Some? && amount <= Affected(l, first) {
      ProportionalCutSuffices(ts, m, amount, minimum);
      RestStaysSpent(ts, m, |ts|, amount, mode, minimum);
    } else {
      GreedyCutSuffices(ts, m, amount, mode, minimum);
    }
  }

  /**
   * The slash bounds: the books stay balanced, what is taken is at least the amount or everything there is, and it
   * exceeds the amount exactly when it falls short of some target, by less than the minimum balance.
   */
  lemma SlashBounds(l: Ledger, amount: nat, minimum: nat, start: nat)
    requires l.Balanced()
    ensures SlashLedger(l, amount, minimum, start).Balanced()
    ensures amount == 0 ==> SlashLedger(l, amount, minimum, start) == l
    ensures var first := FirstSlashable(l.unlocking, start);
            var taken := l.total - SlashLedger(l, amount, minimum, start).total;
            amount > 0 ==>
              && Min(amount, l.total) <= taken <= l.total
              && (taken > amount <==> exists k :: 0 <= k < |Targets(l, first)|
                                        && FallsShort(Targets(l, first), k, amount, ModeOf(l, amount, first), minimum))
              && (taken > amount ==> taken < amount + minimum)
  {
    if amount > 0 {
      NonzeroSlashBounds(l, amount, minimum, start);
    }
  }

  lemma NonzeroSlashBounds(l: Ledger, amount: nat, minimum: nat, start: nat)
    requires l.Balanced() && amount > 0
    ensures SlashLedger(l, amount, minimum, start).Balanced()
    ensures var first := FirstSlashable(l.unlocking, start);
            var taken := l.total - SlashLedger(l, amount, minimum, start).total;
            && Min(amount, l.total) <= taken <= l.total
            && (taken > amount <==> exists k :: 0 <= k < |Targets(l, first)|
                                      && FallsShort(Targets(l, first), k, amount, ModeOf(l, amount, first), minimum))
            && (taken > amount ==> taken < amount + minimum)
  {
    var first, cut := FirstSlashable(l.unlocking, start), CutOf(l, amount, minimum, start);
    var ts, mode := Targets(l, first), ModeOf(l, amount, first);
    SumTargets(l, first);
    CutOvershoot(ts, amount, mode, minimum);
    SweepsDustIff(ts, amount, mode, minimum);
    SlashSuffices(l, amount, minimum, start);
    SumRewritten(l.unlocking, first, cut);
    SumNonZero(Rewritten(l.unlocking, first, cut));
  }

  /** The comment that a slash never exceeds the amount is wrong: 6 of 10 with a minimum balance of 5 takes all 10. */
  lemma SlashCanExceedTheAmount()
    ensures SlashLedger(Ledger(10, 10, []), 6, 5, 0) == Ledger(0, 0, [])
  {
    var l := Ledger(10, 10, []);
    assert Targets(l, 0) == [10];
    assert Cut([10], 6, None, 5) == [0];
    assert CutOf(l, 6, 5, 0) == [0];
    assert Sum([10]) == 10 && Sum([0]) == 0;
  }

  /** Chunk `i` before and after the slash, as targets of the priority order. */
  lemma RewrittenAt(l: Ledger, amount: nat, minimum: nat, start: nat, i: nat)
    requires i < |l.unlocking|
    ensures var first := FirstSlashable(l.unlocking, start);
            var k, cut := 1 + Rank(i, first, |l.unlocking|), CutOf(l, amount, minimum, start);
            && k < |Targets(l, first)| == |cut| == |l.unlocking| + 1
            && Targets(l, first)[k] == l.unlocking[i].value
            && Rewritten(l.unlocking, first, cut)[i] == l.unlocking[i].(value := cut[k])
  {
    OrderedAt(Values(l.unlocking), FirstSlashable(l.unlocking, start), i);
  }

  lemma OrderedAt(values: seq<nat>, first: nat, i: nat)
    requires first <= |values| && i < |values|
    ensures Rank(i, first, |values|) < |values| && Ordered(values, first)[Rank(i, first, |values|)] == values[i]
  {
  }

  /**
   * The slash priority, chunk by chunk, where chunk `i` is `Rewritten[i]` before empty chunks are dropped:
   * a slash that fits the affected balance touches no earlier chunk, and whatever is touched ends empty or at
   * least at the minimum balance.
   */
  lemma SlashPriority(l: Ledger, amount: nat, minimum: nat, start: nat, i: nat)
    requires amount > 0 && i < |l.unlocking|
    ensures var first := FirstSlashable(l.unlocking, start);
            var before := l.unlocking[i];
            var after := Rewritten(l.unlocking, first, CutOf(l, amount, minimum, start))[i];
            && after.era == before.era
            && after.value <= before.value
            && (amount <= Affected(l, first) && i < first ==> after == before)
            && (after.value == before.value || after.value == 0 || after.value >= minimum)
  {
    var first := FirstSlashable(l.unlocking, start);
    var ts, mode := Targets(l, first), ModeOf(l, amount, first);
    var k := 1 + Rank(i, first, |l.unlocking|);
    RewrittenAt(l, amount, minimum, start, i);
    CutAt(ts, k, amount, mode, minimum);
    if amount <= Affected(l, first) && i < first {
      SlashSuffices(l, amount, minimum, start);
      RestStaysSpent(ts, |l.unlocking| - first + 1, k, amount, mode, minimum);
    }
  }

  /** Where the chunks from place `from` on stand that are not empty. */
  function Places(chunks: seq<Chunk>, from: nat): (places: seq<nat>)
    requires from <= |chunks|
    ensures forall j :: 0 <= j < |places| ==> from <= places[j] < |chunks|
    ensures forall a, b :: 0 <= a < b < |places| ==> places[a] < places[b]
    decreases |chunks| - from
  {
    if from == |chunks| then []
    else (if chunks[from].value > 0 then [from] else []) + Places(chunks, from + 1)
  }

  lemma {:induction false} PlaceOf(chunks: seq<Chunk>, from: nat, j: nat)
    requires from <= |chunks|
    ensures |Places(chunks, from)| == |NonZero(chunks[from..])|
    ensures j < |Places(chunks, from)| ==> NonZero(chunks[from..])[j] == chunks[Places(chunks, from)[j]]
    ensures j < |Places(chunks, from)| ==> NonZero(chunks[from..])[j].value > 0
    decreases |chunks| - from
  {
    if from < |chunks| {
      assert chunks[from..][1..] == chunks[from + 1..];
      PlaceOf(chunks, from + 1, if chunks[from].value > 0 && j > 0 then j - 1 else j);
    }
  }

  lemma {:induction false} PlacesAreAll(chunks: seq<Chunk>, from: nat, i: nat)
    requires from <= i < |chunks| && chunks[i].value > 0
    ensures i in Places(chunks, from)
    decreases i - from
  {
    if from < i {
      PlacesAreAll(chunks, from + 1, i);
    }
  }

  /** Where the chunks stood that survive a slash, from the first to the last. */
  function Survivors(l: Ledger, amount: nat, minimum: nat, start: nat): (places: seq<nat>)
    ensures forall j :: 0 <= j < |places| ==> places[j] < |l.unlocking|
    ensures forall a, b :: 0 <= a < b < |places| ==> places[a] < places[b]
  {
    Places(Rewritten(l.unlocking, FirstSlashable(l.unlocking, start), CutOf(l, amount, minimum, start)), 0)
  }

  /**
   * The chunks after a slash are chunks from before it, in order and with their eras. Each holds at most what it had,
   * and all of that or at least the minimum balance; while the amount fits the affected balance, an earlier chunk is as
   * it was.
   */
  lemma SlashKeepsChunks(l: Ledger, amount: nat, minimum: nat, start: nat, j: nat)
    requires amount > 0 && j < |SlashLedger(l, amount, minimum, start).unlocking|
    ensures |Survivors(l, amount, minimum, start)| == |SlashLedger(l, amount, minimum, start).unlocking|
    ensures var i, first := Survivors(l, amount, minimum, start)[j], FirstSlashable(l.unlocking, start);
            var before, after := l.unlocking[i], SlashLedger(l, amount, minimum, start).unlocking[j];
            && after.era == before.era
            && 0 < after.value <= before.value
            && (after.value == before.value || after.value >= minimum)
            && (amount <= Affected(l, first) && i < first ==> after == before)
  {
    var first, cut := FirstSlashable(l.unlocking, start), CutOf(l, amount, minimum, start);
    var rewritten := Rewritten(l.unlocking, first, cut);
    assert rewritten[0..] == rewritten;
    PlaceOf(rewritten, 0, j);
    SlashPriority(l, amount, minimum, start, Survivors(l, amount, minimum, start)[j]);
  }

  /** And no other chunk is missing than those it emptied. */
  lemma SlashDropsTheEmptied(l: Ledger, amount: nat, minimum: nat, start: nat, i: nat)
    requires amount > 0 && i < |l.unlocking|
    ensures var cut, first := CutOf(l, amount, minimum, start), FirstSlashable(l.unlocking, start);
            && (cut[1 + Rank(i, first, |l.unlocking|)] > 0 ==> i in Survivors(l, amount, minimum, start))
            && (amount <= Affected(l, first) && i < first && l.unlocking[i].value > 0 ==>
                  i in Survivors(l, amount, minimum, start))
  {
    var first, cut := FirstSlashable(l.unlocking, start), CutOf(l, amount, minimum, start);
    var rewritten := Rewritten(l.unlocking, first, cut);
    RewrittenAt(l, amount, minimum, start, i);
    SlashPriority(l, amount, minimum, start, i);
    if rewritten[i].value > 0 {
      PlacesAreAll(rewritten, 0, i);
    }
  }

  /** Dropping empty chunks drops nothing else: every other chunk stays as often as it was there. */
  lemma {:induction false} NonZeroIsExact(chunks: seq<Chunk>, c: Chunk)
    ensures multiset(NonZero(chunks))[c] == if c.value == 0 then 0 else multiset(chunks)[c]
  {
    if chunks != [] {
      assert chunks == [chunks[0]] + chunks[1..];
      NonZeroIsExact(chunks[1..], c);
    }
  }

  /** A target that does not use up the slash loses all of its share. */
  lemma LosesInFull(ts: seq<nat>, k: nat, amount: nat, mode: Mode, minimum: nat)
    requires k < |ts| && RestAfter(ts, k + 1, amount, mode, minimum) > 0
    ensures Cut(ts, amount, mode, minimum)[k] == ts[k] - Full(ts[k], mode, minimum)
  {
    CutAt(ts, k, amount, mode, minimum);
  }

  lemma EarlierLoseInFull(ts: seq<nat>, a: nat, b: nat, amount: nat, mode: Mode, minimum: nat)
    requires a < b < |ts| && Cut(ts, amount, mode, minimum)[b] != ts[b]
    ensures Cut(ts, amount, mode, minimum)[a] == ts[a] - Full(ts[a], mode, minimum)
  {
    CutAt(ts, b, amount, mode, minimum);
    if RestAfter(ts, a + 1, amount, mode, minimum) == 0 {
      RestStaysSpent(ts, a + 1, b, amount, mode, minimum);
    } else {
      LosesInFull(ts, a, amount, mode, minimum);
    }
  }

  /** The order of payment: slashable chunks before the earlier ones, the former oldest and the latter newest first. */
  predicate PaysBefore(i: nat, j: nat, first: nat) {
    first <= i < j || j < first <= i || j < i < first
  }

  lemma PaysBeforeIsRank(i: nat, j: nat, first: nat, n: nat)
    requires i < n && j < n && PaysBefore(i, j, first)
    ensures Rank(i, first, n) < Rank(j, first, n)
  {
  }

  /** When a chunk loses anything, the active balance has lost its full share. */
  lemma ActivePaysFirst(l: Ledger, amount: nat, minimum: nat, start: nat, j: nat)
    requires amount > 0 && j < |l.unlocking|
    ensures var first := FirstSlashable(l.unlocking, start);
            Rewritten(l.unlocking, first, CutOf(l, amount, minimum, start))[j] != l.unlocking[j] ==>
              SlashLedger(l, amount, minimum, start).active
              == l.active - Full(l.active, ModeOf(l, amount, first), minimum)
  {
    var first := FirstSlashable(l.unlocking, start);
    var ts, b := Targets(l, first), 1 + Rank(j, first, |l.unlocking|);
    RewrittenAt(l, amount, minimum, start, j);
    if CutOf(l, amount, minimum, start)[b] != ts[b] {
      EarlierLoseInFull(ts, 0, b, amount, ModeOf(l, amount, first), minimum);
    }
  }

  /** Nobody pays out of turn: then so has every chunk before it in the order of payment. */
  lemma NobodyPaysOutOfTurn(l: Ledger, amount: nat, minimum: nat, start: nat, i: nat, j: nat)
    requires amount > 0 && i < |l.unlocking| && j < |l.unlocking|
    requires PaysBefore(i, j, FirstSlashable(l.unlocking, start))
    ensures var first := FirstSlashable(l.unlocking, start);
            var after := Rewritten(l.unlocking, first, CutOf(l, amount, minimum, start));
            after[j] != l.unlocking[j] ==>
              after[i].value == l.unlocking[i].value - Full(l.unlocking[i].value, ModeOf(l, amount, first), minimum)
  {
    var first, n := FirstSlashable(l.unlocking, start), |l.unlocking|;
    var ts, b := Targets(l, first), 1 + Rank(j, first, n);
    RewrittenAt(l, amount, minimum, start, i);
    RewrittenAt(l, amount, minimum, start, j);
    PaysBeforeIsRank(i, j, first, n);
    if CutOf(l, amount, minimum, start)[b] != ts[b] {
      EarlierLoseInFull(ts, 1 + Rank(i, first, n), b, amount, ModeOf(l, amount, first), minimum);
    }
  }

  /** A proportional slash takes from a chunk at most its up-rounded share, unless it empties it. */
  lemma SharesAreCapped(l: Ledger, amount: nat, minimum: nat, start: nat, i: nat)
    requires amount > 0 && i < |l.unlocking|
    requires FirstSlashable(l.unlocking, start) < |l.unlocking|
    ensures var first := FirstSlashable(l.unlocking, start);
            var before := l.unlocking[i].value;
            var after := Rewritten(l.unlocking, first, CutOf(l, amount, minimum, start))[i].value;
            after > 0 ==> before - after <= MulCeil(RatioUp(amount, Affected(l, first)), before)
  {
    var first := FirstSlashable(l.unlocking, start);
    RewrittenAt(l, amount, minimum, start, i);
    CutAt(Targets(l, first), 1 + Rank(i, first, |l.unlocking|), amount, ModeOf(l, amount, first), minimum);
  }

  /** The active balance goes first: with no slashable chunk, chunks lose only what active cannot cover. */
  lemma ActiveIsSlashedFirst(l: Ledger, amount: nat, minimum: nat, start: nat)
    requires amount > 0
    ensures var active, first := SlashLedger(l, amount, minimum, start).active, FirstSlashable(l.unlocking, start);
            && active <= l.active
            && (active == l.active || active == 0 || active >= minimum)
            && (first == |l.unlocking| ==> active == if l.active < amount + minimum then 0 else l.active - amount)
            && (first < |l.unlocking| && active > 0 ==>
                  l.active - active <= MulCeil(RatioUp(amount, Affected(l, first)), l.active))
  {
    var first := FirstSlashable(l.unlocking, start);
    CutAt(Targets(l, first), 0, amount, ModeOf(l, amount, first), minimum);
  }

  class StakingLedger {
    var total: nat
    var active: nat
    var unlocking: seq<Chunk>

    function Value(): Ledger
      reads this
    {
      Ledger(total, active, unlocking)
    }

    constructor (l: Ledger)
      ensures Value() == l
    {
      total, active, unlocking := l.total, l.active, l.unlocking;
    }

    /** Slashes the ledger and returns the amount actually slashed. */
    method Slash(amount: nat, minimum: nat, slashEra: nat, bondingDuration: nat) returns (slashed: nat)
      requires Value().Balanced()
      modifies this
      ensures Value() == SlashLedger(old(Value()), amount, minimum, slashEra + bondingDuration)
      ensures Value().Balanced()
      ensures slashed == old(total) - total
    {
      if amount == 0 {
        return 0;
      }
      var preSlashTotal, start := total, slashEra + bondingDuration;
      SlashBounds(Value(), amount, minimum, start);
      SlashTargets(amount, minimum, start);
      SumNonZero(unlocking);
      unlocking := NonZero(unlocking);
      slashed := Sub(preSlashTotal, total);
    }

    /** Slashes the active balance, then the chunks; leaves the emptied chunks in place. */
    method SlashTargets(amount: nat, minimum: nat, start: nat)
      requires Value().Balanced() && amount > 0
      modifies this
      ensures Value().Balanced()
      ensures Value().(unlocking := NonZero(unlocking)) == SlashLedger(old(Value()), amount, minimum, start)
    {
      ghost var l := Value();
      var first := FindSlashable(start);
      var mode := ChooseMode(amount, first);
      var remaining;
      CutAt(Targets(l, first), 0, amount, mode, minimum);
      active, remaining := SlashOutOf(active, amount, mode, minimum);
      SlashChunks(first, remaining, mode, minimum);
      WalkStart(l, first, amount, mode, minimum);
      WalkIsCut(l.unlocking, l, first, amount, mode, minimum, 0);
      SlashedIsRewritten(l, Value(), amount, minimum, start);
    }

    method FindSlashable(start: nat) returns (first: nat)
      ensures first == FirstSlashable(unlocking, start)
    {
      first := 0;
      while first < |unlocking| && unlocking[first].era < start
        invariant first <= |unlocking|
        invariant FirstSlashable(unlocking, start) == first + FirstSlashable(unlocking[first..], start)
      {
        assert unlocking[first..][1..] == unlocking[first + 1..];
        first := first + 1;
      }
    }

    /** Proportional to the active balance and the slashable chunks, if there are any. */
    method ChooseMode(amount: nat, first: nat) returns (mode: Mode)
      requires first <= |unlocking|
      ensures mode == ModeOf(Value(), amount, first)
    {
      if first == |unlocking| {
        return None;
      }
      var unbonding := 0;
      ghost var values := Values(unlocking);
      for i := first to |unlocking|
        invariant unbonding + Sum(values[i..]) == Sum(values[first..])
      {
        assert values[i..][1..] == values[i + 1..];
        unbonding := unbonding + unlocking[i].value;
      }
      mode := Some(RatioUp(amount, active + unbonding));
    }

    /** Slashes the chunks in priority order until nothing remains. */
    method SlashChunks(first: nat, remaining: nat, mode: Mode, minimum: nat)
      requires Value().Balanced() && first <= |unlocking|
      modifies this`unlocking, this`total
      ensures Value().Balanced()
      ensures unlocking == Walk(old(unlocking), first, 0, remaining, mode, minimum)
    {
      var k, left := 0, remaining;
      while k < |unlocking| && left != 0
        invariant Value().Balanced() && first <= |unlocking| && k <= |unlocking|
        invariant Walk(unlocking, first, k, left, mode, minimum)
            == Walk(old(unlocking), first, 0, remaining, mode, minimum)
      {
        left := SlashChunk(IndexAt(k, first, |unlocking|), left, mode, minimum);
        k := k + 1;
      }
    }

    method SlashChunk(i: nat, remaining: nat, mode: Mode, minimum: nat) returns (rest: nat)
      requires Value().Balanced() && i < |unlocking|
      modifies this`unlocking, this`total
      ensures Value().Balanced()
      ensures var chunk := old(unlocking)[i];
              && unlocking == old(unlocking)[i := chunk.(value := Left(chunk.value, remaining, mode, minimum))]
              && rest == Rest(chunk.value, remaining, mode, minimum)
    {
      var value;
      ChunkUpdate(unlocking, 0, i, Left(unlocking[i].value, remaining, mode, minimum));
      value, rest := SlashOutOf(unlocking[i].value, remaining, mode, minimum);
      unlocking := unlocking[i := unlocking[i].(value := value)];
    }

    /** Slashes one target, sweeping its dust, and takes the same off the total. */
    method SlashOutOf(target: nat, remaining: nat, mode: Mode, minimum: nat) returns (left: nat, rest: nat)
      requires target <= total
      modifies this`total
      ensures left == Left(target, remaining, mode, minimum)
      ensures rest == Rest(target, remaining, mode, minimum)
      ensures total == old(total) - (target - left)
    {
      var taken := Min(Min(if mode.Some? then MulCeil(mode.value, target) else remaining, target), remaining);
      left := target - taken;
      if left < minimum {
        taken := left + taken;
        left := 0;
      }
      total := Sub(total, taken);
      rest := Sub(remaining, taken);
    }

    /** Drops the chunks that are due and takes their balance off the total. */
    method ConsolidateUnlocked(currentEra: nat)
      requires Value().Balanced()
      modifies this
      ensures Value().Balanced() && active == old(active)
      ensures unlocking == After(old(unlocking), currentEra)
      ensures total == old(total) - (Sum(Values(old(unlocking))) - Sum(Values(After(old(unlocking), currentEra))))
    {
      unlocking, total := FilterDue(unlocking, currentEra, total);
    }

    /** The chunks due later, and the total without the others. */
    static method FilterDue(chunks: seq<Chunk>, currentEra: nat, total: nat) returns (kept: seq<Chunk>, rest: nat)
      requires Sum(Values(chunks)) <= total
      ensures kept == After(chunks, currentEra)
      ensures rest == total - Sum(Values(chunks)) + Sum(Values(kept))
    {
      kept, rest := [], total;
      for i := 0 to |chunks|
        invariant After(chunks, currentEra) == kept + After(chunks[i..], currentEra)
        invariant rest == total - Sum(Values(chunks)) + Sum(Values(kept)) + Sum(Values(chunks[i..]))
      {
        ChunkMoves(kept, chunks, i, currentEra);
        if chunks[i].era > currentEra {
          kept := kept + [chunks[i]];
        } else {
          rest := Sub(rest, chunks[i].value);
        }
      }
      assert kept + After([], currentEra) == kept;
    }

    /** Moves up to `room` back from the newest chunk, which goes when it is used up. */
    method RebondLast(room: nat) returns (moved: nat)
      requires unlocking != []
      modifies this`active, this`unlocking
      ensures var last := |old(unlocking)| - 1;
              var value := old(unlocking)[last].value;
              && moved == Min(room, value)
              && unlocking == if value <= room then old(unlocking)[..last]
                              else old(unlocking)[last := old(unlocking)[last].(value := value - room)]
      ensures active == old(active) + moved
      ensures Sum(Values(unlocking)) + moved == Sum(Values(old(unlocking)))
    {
      var last := |unlocking| - 1;
      LastChunk(unlocking, room);
      if unlocking[last].value <= room {
        moved := unlocking[last].value;
        unlocking := unlocking[..last];
      } else {
        moved := room;
        unlocking := unlocking[last := unlocking[last].(value := unlocking[last].value - room)];
      }
      active := active + moved;
    }

    /** Moves up to `value` back from the newest chunks into the active balance and returns what was moved. */
    method Rebond(value: nat) returns (rebonded: nat)
      requires Value().Balanced()
      modifies this
      ensures Value().Balanced() && total == old(total)
      ensures rebonded == Min(value, Sum(Values(old(unlocking))))
      ensures active == old(active) + rebonded
      ensures Reduced(unlocking, old(unlocking))
    {
      rebonded := 0;
      var done := unlocking == [];
      ghost var chunks := unlocking;
      while !done
        invariant |unlocking| <= |chunks| && Reduced(unlocking, chunks)
        invariant !done ==> unlocking != [] && unlocking == chunks[..|unlocking|]
        invariant active == old(active) + rebonded && rebonded <= value
        invariant Sum(Values(unlocking)) + rebonded == Sum(Values(chunks))
        invariant done ==> rebonded == value || unlocking == []
        invariant total == old(total)
        decreases !done, |unlocking|
      {
        var last := |unlocking| - 1;
        ReducedPrefix(chunks, last, if unlocking[last].value <= value - rebonded then 0 else value - rebonded);
        var moved := RebondLast(value - rebonded);
        rebonded := rebonded + moved;
        done := rebonded >= value || unlocking == [];
      }
    }
  }

  /** A prefix of the chunks, of which at most the last has lost something and is not empty for it. */
  predicate Reduced(after: seq<Chunk>, before: seq<Chunk>) {
    && |after| <= |before|
    && (forall i :: 0 <= i < |after| - 1 ==> after[i] == before[i])
    && (after != [] ==>
          var last, was := after[|after| - 1], before[|after| - 1];
          last.era == was.era && last.value <= was.value && (last.value < was.value ==> last.value > 0))
  }

  lemma ReducedPrefix(chunks: seq<Chunk>, last: nat, diff: nat)
    requires last < |chunks| && (diff == 0 || diff < chunks[last].value)
    ensures Reduced(chunks[..last], chunks)
    ensures Reduced(chunks[..last + 1][last := chunks[last].(value := chunks[last].value - diff)], chunks)
  {
  }

  /** What popping or reducing the newest chunk takes off the sum. */
  lemma LastChunk(chunks: seq<Chunk>, diff: nat)
    requires chunks != []
    ensures var last := |chunks| - 1;
            && Sum(Values(chunks)) == Sum(Values(chunks[..last])) + chunks[last].value
            && (diff <= chunks[last].value ==>
                  Sum(Values(chunks[last := chunks[last].(value := chunks[last].value - diff)]))
                  == Sum(Values(chunks)) - diff)
  {
    var values, last := Values(chunks), |chunks| - 1;
    SumStep(values, last);
    assert values[..last + 1] == values && Values(chunks[..last]) == values[..last];
    if diff <= chunks[last].value {
      SumUpdate(values, last, chunks[last].value - diff);
      assert Values(chunks[last := chunks[last].(value := chunks[last].value - diff)])
          == values[last := chunks[last].value - diff];
    }
  }

  ghost predicate SameEras(a: seq<Chunk>, b: seq<Chunk>) {
    |a| == |b| && forall i :: 0 <= i < |a| ==> a[i].era == b[i].era
  }

  /** The chunks' part of two target lists: the first up to place `k`, the second from there. */
  function Splice(a: seq<nat>, b: seq<nat>, k: nat): seq<nat>
    requires 1 <= k <= |a| == |b|
  {
    a[1..k] + b[k..]
  }

  lemma SpliceStep(a: seq<nat>, b: seq<nat>, k: nat)
    requires 1 <= k <= |a| == |b|
    ensures k < |a| ==> Splice(a, b, k)[k - 1] == b[k] && Splice(a, b, k + 1) == Splice(a, b, k)[k - 1 := a[k]]
    ensures a[k..] == b[k..] ==> Splice(a, b, k) == a[1..]
  {
    if a[k..] == b[k..] {
      assert a[1..k] + a[k..] == a[1..];
    }
  }

  lemma OrderedUpdate(values: seq<nat>, first: nat, i: nat, v: nat)
    requires first <= |values| && i < |values|
    ensures Ordered(values[i := v], first) == Ordered(values, first)[Rank(i, first, |values|) := v]
  {
    assert Ordered(values[i := v], first) == Ordered(values, first)[Rank(i, first, |values|) := v];
  }

  /** Rewriting one chunk moves its place in the order and the sum with it, and nothing else. */
  lemma ChunkUpdate(chunks: seq<Chunk>, first: nat, i: nat, v: nat)
    requires first <= |chunks| && i < |chunks|
    ensures var written := chunks[i := chunks[i].(value := v)];
            var rank := Rank(i, first, |chunks|);
            && SameEras(written, chunks)
            && Ordered(Values(chunks), first)[rank] == chunks[i].value <= Sum(Values(chunks))
            && Ordered(Values(written), first) == Ordered(Values(chunks), first)[rank := v]
            && Sum(Values(written)) == Sum(Values(chunks)) - chunks[i].value + v
  {
    var values := Values(chunks);
    assert Values(chunks[i := chunks[i].(value := v)]) == values[i := v];
    OrderedUpdate(values, first, i, v);
    SumUpdate(values, i, v);
  }

  /** The first `k` chunks of the order hold their cut values, the rest are as they were. */
  ghost predicate Walked(chunks: seq<Chunk>, l: Ledger, first: nat, amount: nat, mode: Mode, minimum: nat, k: nat)
    requires first <= |l.unlocking| && k <= |l.unlocking|
  {
    var ts := Targets(l, first);
    && SameEras(chunks, l.unlocking)
    && Ordered(Values(chunks), first) == Splice(Cut(ts, amount, mode, minimum), ts, k + 1)
  }

  lemma WalkStart(l: Ledger, first: nat, amount: nat, mode: Mode, minimum: nat)
    requires first <= |l.unlocking| && amount > 0
    ensures Walked(l.unlocking, l, first, amount, mode, minimum, 0)
    ensures RestAfter(Targets(l, first), 1, amount, mode, minimum) == Rest(l.active, amount, mode, minimum)
  {
    var ts := Targets(l, first);
    assert ts[1..] == Ordered(Values(l.unlocking), first);
    assert Splice(Cut(ts, amount, mode, minimum), ts, 1) == ts[1..];
  }

  lemma WalkStep(chunks: seq<Chunk>, l: Ledger, first: nat, amount: nat, mode: Mode, minimum: nat, k: nat)
    requires first <= |l.unlocking| && k < |l.unlocking|
    requires Walked(chunks, l, first, amount, mode, minimum, k)
    requires RestAfter(Targets(l, first), k + 1, amount, mode, minimum) > 0
    ensures var ts, i := Targets(l, first), IndexAt(k, first, |l.unlocking|);
            var r := RestAfter(ts, k + 1, amount, mode, minimum);
            && Walked(chunks[i := chunks[i].(value := Left(chunks[i].value, r, mode, minimum))],
                      l, first, amount, mode, minimum, k + 1)
            && RestAfter(ts, k + 2, amount, mode, minimum) == Rest(chunks[i].value, r, mode, minimum)
  {
    var ts, i := Targets(l, first), IndexAt(k, first, |l.unlocking|);
    var cut := Cut(ts, amount, mode, minimum);
    CutAt(ts, k + 1, amount, mode, minimum);
    SpliceStep(cut, ts, k + 1);
    ChunkUpdate(chunks, first, i, cut[k + 1]);
  }

  /** The chunks after a slash walks them in priority order from place `k` on and stops once nothing remains. */
  function Walk(chunks: seq<Chunk>, first: nat, k: nat, remaining: nat, mode: Mode, minimum: nat): seq<Chunk>
    requires first <= |chunks| && k <= |chunks|
    decreases |chunks| - k
  {
    if k == |chunks| || remaining == 0 then chunks
    else
      var i := IndexAt(k, first, |chunks|);
      var value := chunks[i].value;
      Walk(chunks[i := chunks[i].(value := Left(value, remaining, mode, minimum))], first, k + 1,
           Rest(value, remaining, mode, minimum), mode, minimum)
  }

  /** The walk leaves the chunks at their values in the cut. */
  lemma {:induction false} WalkIsCut(chunks: seq<Chunk>, l: Ledger, first: nat, amount: nat, mode: Mode,
                                     minimum: nat, k: nat)
    requires first <= |l.unlocking| && k <= |l.unlocking|
    requires Walked(chunks, l, first, amount, mode, minimum, k)
    ensures var r := RestAfter(Targets(l, first), k + 1, amount, mode, minimum);
            var walked := Walk(chunks, first, k, r, mode, minimum);
            && SameEras(walked, l.unlocking)
            && Ordered(Values(walked), first) == Cut(Targets(l, first), amount, mode, minimum)[1..]
    decreases |l.unlocking| - k
  {
    var r, n := RestAfter(Targets(l, first), k + 1, amount, mode, minimum), |l.unlocking|;
    if k == n || r == 0 {
      WalkEnd(chunks, l, first, amount, mode, minimum, k);
    } else {
      var i := IndexAt(k, first, n);
      WalkStep(chunks, l, first, amount, mode, minimum, k);
      WalkIsCut(chunks[i := chunks[i].(value := Left(chunks[i].value, r, mode, minimum))],
                l, first, amount, mode, minimum, k + 1);
    }
  }

  lemma WalkEnd(chunks: seq<Chunk>, l: Ledger, first: nat, amount: nat, mode: Mode, minimum: nat, k: nat)
    requires first <= |l.unlocking| && k <= |l.unlocking|
    requires Walked(chunks, l, first, amount, mode, minimum, k)
    requires k == |l.unlocking| || RestAfter(Targets(l, first), k + 1, amount, mode, minimum) == 0
    ensures Ordered(Values(chunks), first) == Cut(Targets(l, first), amount, mode, minimum)[1..]
  {
    var ts := Targets(l, first);
    UntouchedTail(ts, k + 1, amount, mode, minimum);
    SpliceStep(Cut(ts, amount, mode, minimum), ts, k + 1);
  }

  /** A ledger whose targets are the cut ones is the slashed ledger, up to its empty chunks. */
  lemma SlashedIsRewritten(l: Ledger, m: Ledger, amount: nat, minimum: nat, start: nat)
    requires l.Balanced() && m.Balanced() && amount > 0 && SameEras(m.unlocking, l.unlocking)
    requires var first, cut := FirstSlashable(l.unlocking, start), CutOf(l, amount, minimum, start);
             m.active == cut[0] && Ordered(Values(m.unlocking), first) == cut[1..]
    ensures SlashLedger(l, amount, minimum, start) == m.(unlocking := NonZero(m.unlocking))
  {
    var first, cut := FirstSlashable(l.unlocking, start), CutOf(l, amount, minimum, start);
    SumTargets(l, first);
    CutOvershoot(Targets(l, first), amount, ModeOf(l, amount, first), minimum);
    SumOrdered(Values(m.unlocking), first);
    RewrittenIsUnique(l.unlocking, m.unlocking, first, cut);
  }

  lemma RewrittenIsUnique(chunks: seq<Chunk>, written: seq<Chunk>, first: nat, cut: seq<nat>)
    requires first <= |chunks| && |cut| == |chunks| + 1 && SameEras(written, chunks)
    requires Ordered(Values(written), first) == cut[1..]
    ensures written == Rewritten(chunks, first, cut)
  {
    forall i | 0 <= i < |chunks| ensures written[i] == Rewritten(chunks, first, cut)[i] {
      assert Ordered(Values(written), first)[Rank(i, first, |chunks|)] == written[i].value;
    }
  }

  /** The chunks still locked after an era. */
  function After(chunks: seq<Chunk>, era: nat): seq<Chunk> {
    if chunks == [] then []
    else if chunks[0].era > era then [chunks[0]] + After(chunks[1..], era)
    else After(chunks[1..], era)
  }

  lemma ChunkMoves(kept: seq<Chunk>, chunks: seq<Chunk>, i: nat, era: nat)
    requires i < |chunks|
    ensures kept + After(chunks[i..], era)
         == (if chunks[i].era > era then kept + [chunks[i]] else kept) + After(chunks[i + 1..], era)
    ensures Sum(Values(chunks[i..])) == chunks[i].value + Sum(Values(chunks[i + 1..]))
    ensures Sum(Values(kept + [chunks[i]])) == Sum(Values(kept)) + chunks[i].value
  {
    assert chunks[i..][1..] == chunks[i + 1..];
    assert Values(chunks[i..])[1..] == Values(chunks[i + 1..]);
    SumAppend(Values(kept), [chunks[i].value]);
    assert Values(kept + [chunks[i]]) == Values(kept) + [chunks[i].value];
  }

  /** Exactly the chunks due later survive, in their order. */
  lemma {:induction false} AfterIsExact(chunks: seq<Chunk>, era: nat, c: Chunk)
    ensures multiset(After(chunks, era))[c] == if c.era > era then multiset(chunks)[c] else 0
  {
    if chunks != [] {
      AfterIsExact(chunks[1..], era, c);
      assert chunks == [chunks[0]] + chunks[1..];
    }
  }

  lemma UntouchedTail(ts: seq<nat>, k: nat, remaining: nat, mode: Mode, minimum: nat)
    requires k <= |ts| && (k == |ts| || RestAfter(ts, k, remaining, mode, minimum) == 0)
    ensures Cut(ts, remaining, mode, minimum)[k..] == ts[k..]
  {
    forall j | k <= j < |ts| ensures Cut(ts, remaining, mode, minimum)[j] == ts[j] {
      RestStaysSpent(ts, k, j, remaining, mode, minimum);
      CutAt(ts, j, remaining, mode, minimum);
    }
  }
}

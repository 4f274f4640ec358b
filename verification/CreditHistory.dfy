/** Scheduler credit: five weighted periods of history, kept by dropping one period as another is written. */
module CreditHistory {
  import opened Base
  import opened PerThings

  const FULL_CREDIT_SCORE: nat := 1000
  const HISTORY_DEPTH: nat := 5
  const U64_MAX: nat := 0xFFFF_FFFF_FFFF_FFFF
  const U32_MAX: nat := 0xFFFF_FFFF

  datatype Entry = Entry(size: nat, punishments: nat)

  type Counters = map<Account, Entry>
  type History = map<nat, map<Account, nat>>

  /** The weight of the `i`-th period back. */
  function Weight(i: nat): Perbill
    requires i < HISTORY_DEPTH
  {
    Percent(if i == 0 then 50 else if i == 1 then 20 else if i == 2 then 15 else if i == 3 then 10 else 5)
  }

  function Punishment(count: nat): nat {
    (10 * count) * (10 * count)
  }

  function CreditValue(e: Entry, totalSize: nat): nat {
    if totalSize == 0 then 0
    else Sub(Times(FromRational(e.size, totalSize), FULL_CREDIT_SCORE), Punishment(e.punishments))
  }

  /** Punishments take a hundred times the square of their number off the share of the work, as far as there is any. */
  lemma PunishmentLowers(e: Entry, totalSize: nat)
    ensures CreditValue(e, totalSize)
         == Sub(CreditValue(e.(punishments := 0), totalSize), 100 * (e.punishments * e.punishments))
  {
    assert (10 * e.punishments) * (10 * e.punishments) == 100 * (e.punishments * e.punishments);
  }

  /** Whoever did all the work has the full score, less the punishments. */
  lemma FullShare(e: Entry, totalSize: nat)
    requires 0 < totalSize == e.size
    ensures CreditValue(e, totalSize) == Sub(1000, 100 * (e.punishments * e.punishments))
  {
    DivUnique(totalSize * BILLION, BILLION, 0, totalSize);
    PunishmentLowers(e, totalSize);
  }

  /** Without punishments the value is the share of the work in thousandths, within one. */
  lemma CreditIsTheShare(size: nat, totalSize: nat)
    requires 0 < totalSize && size <= totalSize
    ensures var value := CreditValue(Entry(size, 0), totalSize);
            2 * (value * totalSize) <= 2000 * size + totalSize && 2000 * size < 2 * (value * totalSize) + 2 * totalSize
  {
    var q := FromRational(size, totalSize);
    var value := CreditValue(Entry(size, 0), totalSize);
    FromRationalAtMost(size, totalSize);
    FromRationalAbove(size, totalSize);
    assert 2 * value * BILLION <= 2000 * q + BILLION && 2000 * q < 2 * value * BILLION + BILLION + 2;
    ThousandthsAtMost(size, totalSize, q, value);
    ThousandthsAbove(size, totalSize, q, value);
  }

  lemma ThousandthsAtMost(size: nat, total: nat, q: nat, value: nat)
    requires q * total <= size * BILLION && 2 * value * BILLION <= 2000 * q + BILLION
    ensures 2 * (value * total) <= 2000 * size + total
  {
    MulMonotone(2 * value * BILLION, total, 2000 * q + BILLION, total);
    assert 2 * value * BILLION * total == 2 * (value * total) * BILLION;
    assert (2000 * q + BILLION) * total == 2000 * (q * total) + BILLION * total;
  }

  lemma ThousandthsAbove(size: nat, total: nat, q: nat, value: nat)
    requires 0 < total && size * BILLION < (q + 1) * total && 2000 * q < 2 * value * BILLION + BILLION + 2
    ensures 2000 * size < 2 * (value * total) + 2 * total
  {
    MulMonotone(2000 * q, total, 2 * value * BILLION + BILLION + 2, total);
    assert (2 * value * BILLION + BILLION + 2) * total == 2 * (value * total) * BILLION + BILLION * total + 2 * total;
    assert 2000 * q * total == 2000 * (q * total);
    assert (q + 1) * total == q * total + total;
  }

  function Sizes(c: Counters): map<Account, nat> {
    map a | a in c :: c[a].size
  }

  function Values(c: Counters, totalSize: nat): map<Account, nat> {
    map a | a in c :: CreditValue(c[a], totalSize)
  }

  function At(h: History, period: nat): map<Account, nat> {
    if period in h then h[period] else map[]
  }

  function Value(h: History, period: nat, who: Account): nat {
    if who in At(h, period) then At(h, period)[who] else 0
  }

  function Write(h: History, values: map<Account, nat>, period: nat): History {
    h[period := At(h, period) + values]
  }

  /** Dropping the period that falls out of the window. */
  function Prune(h: History, period: nat): History {
    if period >= HISTORY_DEPTH then h - {period - HISTORY_DEPTH} else h
  }

  /** Writing a period's credit values. */
  ghost function Written(h: History, c: Counters, period: nat): History {
    Write(h, Values(c, MapSum(Sizes(c))), period)
  }

  ghost function Pruned(h: History, c: Counters, period: nat): History {
    Prune(Written(h, c, period), period)
  }

  function WeightedFrom(h: History, last: nat, who: Account, i: nat): nat
    requires i <= HISTORY_DEPTH
    decreases HISTORY_DEPTH - i
  {
    if i == HISTORY_DEPTH then 0
    else (if last >= i then Times(Weight(i), Value(h, last - i, who)) else 0) + WeightedFrom(h, last, who, i + 1)
  }

  /** The credit score: the weighted values of the last five periods. */
  function Score(h: History, last: nat, who: Account): nat {
    WeightedFrom(h, last, who, 0)
  }

  /** The value of the `i`-th period back, or nothing before there were periods. */
  function Back(h: History, last: nat, who: Account, i: nat): nat {
    if last >= i then Value(h, last - i, who) else 0
  }

  lemma WeightedOnce(w: nat, x: nat)
    requires w <= 100
    ensures w * x - 50 <= 100 * Times(Percent(w), x) <= w * x + 50
  {
    assert Percent(w) * x == 10_000_000 * (w * x);
  }

  /** The score weighs the last five periods with 50, 20, 15, 10 and 5 per cent, each rounded to the nearest unit. */
  lemma ScoreIsWeighted(h: History, last: nat, who: Account)
    ensures var mean := 50 * Back(h, last, who, 0) + 20 * Back(h, last, who, 1) + 15 * Back(h, last, who, 2)
                        + 10 * Back(h, last, who, 3) + 5 * Back(h, last, who, 4);
            mean - 250 <= 100 * Score(h, last, who) <= mean + 250
  {
    WeightedOnce(50, Back(h, last, who, 0));
    WeightedOnce(20, Back(h, last, who, 1));
    WeightedOnce(15, Back(h, last, who, 2));
    WeightedOnce(10, Back(h, last, who, 3));
    WeightedOnce(5, Back(h, last, who, 4));
    WeightedStep(h, last, who, 0);
    WeightedStep(h, last, who, 1);
    WeightedStep(h, last, who, 2);
    WeightedStep(h, last, who, 3);
    WeightedStep(h, last, who, 4);
  }

  /** Whoever none of the last five periods records has no score. */
  lemma StrangersScoreNothing(h: History, last: nat, who: Account)
    requires forall period: nat :: period <= last < period + 5 ==> who !in At(h, period)
    ensures Score(h, last, who) == 0
  {
    NothingFrom(h, last, who, 0);
  }

  lemma {:induction false} NothingFrom(h: History, last: nat, who: Account, i: nat)
    requires i <= 5 && forall period: nat :: period <= last < period + 5 ==> who !in At(h, period)
    ensures HISTORY_DEPTH == 5 && WeightedFrom(h, last, who, i) == 0
    decreases 5 - i
  {
    if i < 5 {
      assert last >= i ==> who !in At(h, last - i);
      NothingFrom(h, last, who, i + 1);
    }
  }

  lemma WeightedStep(h: History, last: nat, who: Account, i: nat)
    requires i < 5
    ensures HISTORY_DEPTH == 5
    ensures WeightedFrom(h, last, who, i)
         == Times(Weight(i), Back(h, last, who, i)) + if i == 4 then 0 else WeightedFrom(h, last, who, i + 1)
  {
  }

  /** In a period's values a scheduler's share is of the sizes of all, its own among them. */
  lemma PeriodShares(h: History, c: Counters, period: nat, who: Account)
    requires who in c
    ensures c[who].size <= MapSum(Sizes(c))
    ensures Value(Written(h, c, period), period, who) == CreditValue(c[who], MapSum(Sizes(c)))
    ensures c == map[who := c[who]] && c[who].size > 0 ==>
              Value(Written(h, c, period), period, who)
              == Sub(1000, 100 * (c[who].punishments * c[who].punishments))
  {
    MapSumAt(Sizes(c), who);
    if c == map[who := c[who]] && c[who].size > 0 {
      assert Sizes(c) - {who} == map[];
      FullShare(c[who], c[who].size);
    }
  }

  // ----- Runs of blocks

  datatype Update = Proceed(who: Account, size: nat) | Punish(who: Account)

  function Entry0(c: Counters, who: Account): Entry {
    if who in c then c[who] else Entry(0, 0)
  }

  predicate Overflows(c: Counters, u: Update) {
    var e := Entry0(c, u.who);
    if u.Proceed? then e.size + u.size > U64_MAX else e.punishments + 1 > U32_MAX
  }

  /** A counter that would overflow stays as it is. */
  function Updated(c: Counters, u: Update): Counters {
    var e := Entry0(c, u.who);
    if Overflows(c, u) then c
    else c[u.who := if u.Proceed? then e.(size := e.size + u.size) else e.(punishments := e.punishments + 1)]
  }

  function UpdatedAll(c: Counters, us: seq<Update>): Counters
    decreases |us|
  {
    if us == [] then c else UpdatedAll(Updated(c, us[0]), us[1..])
  }

  /** Block size recorded for a scheduler, and how often it was punished. */
  function SizeOf(us: seq<Update>, who: Account): nat {
    if us == [] then 0 else (if us[0].Proceed? && us[0].who == who then us[0].size else 0) + SizeOf(us[1..], who)
  }

  function PunishedIn(us: seq<Update>, who: Account): nat {
    if us == [] then 0 else (if us[0].Punish? && us[0].who == who then 1 else 0) + PunishedIn(us[1..], who)
  }

  predicate InRange(e: Entry) {
    e.size <= U64_MAX && e.punishments <= U32_MAX
  }

  /**
   * A counter is the sum of what was recorded for it exactly when that sum fits; otherwise updates were refused, and
   * it is less. It never leaves its range.
   */
  lemma {:induction false} CountersAreSums(c: Counters, us: seq<Update>, who: Account)
    requires InRange(Entry0(c, who))
    ensures var e, r := Entry0(c, who), Entry0(UpdatedAll(c, us), who);
            && InRange(r)
            && r.size <= e.size + SizeOf(us, who) && r.punishments <= e.punishments + PunishedIn(us, who)
            && (r.size == e.size + SizeOf(us, who) <==> e.size + SizeOf(us, who) <= U64_MAX)
            && (r.punishments == e.punishments + PunishedIn(us, who)
                <==> e.punishments + PunishedIn(us, who) <= U32_MAX)
    decreases |us|
  {
    if us != [] {
      CountersAreSums(Updated(c, us[0]), us[1..], who);
    }
  }

  /** So a period that starts with no counters ends with what was recorded in it, as long as that fits. */
  lemma PeriodCounters(us: seq<Update>, who: Account)
    ensures var r := UpdatedAll(map[], us);
            who in r ==> && (SizeOf(us, who) <= U64_MAX ==> r[who].size == SizeOf(us, who))
                         && (PunishedIn(us, who) <= U32_MAX ==> r[who].punishments == PunishedIn(us, who))
  {
    CountersAreSums(map[], us, who);
  }

  /** The chain with the pruned history, and beside it the history that is never pruned. */
  datatype Chain = Chain(now: nat, counters: Counters, pruned: History, full: History)

  ghost function Block(c: Chain, duration: nat, us: seq<Update>): Chain
    requires duration > 0
  {
    var now := c.now + 1;
    var begun := if now % duration == 0 then Closed(c, Sub(now / duration, 1)) else c;
    begun.(now := now, counters := UpdatedAll(begun.counters, us))
  }

  /** The period's counters become its values, in both histories. */
  ghost function Closed(c: Chain, period: nat): Chain {
    c.(counters := map[], pruned := Pruned(c.pruned, c.counters, period), full := Written(c.full, c.counters, period))
  }

  ghost function Blocks(c: Chain, duration: nat, uss: seq<seq<Update>>): Chain
    requires duration > 0
    decreases |uss|
  {
    if uss == [] then c else Blocks(Block(c, duration, uss[0]), duration, uss[1..])
  }

  ghost predicate AgreeFrom(a: History, b: History, period: int) {
    forall k: nat :: period <= k ==> At(a, k) == At(b, k)
  }

  ghost predicate Bounded(h: History) {
    forall k, a :: k in h && a in h[k] ==> h[k][a] <= FULL_CREDIT_SCORE
  }

  /** In period `period` the last five periods agree. */
  ghost predicate Good(c: Chain, period: nat) {
    AgreeFrom(c.pruned, c.full, period - HISTORY_DEPTH) && Bounded(c.pruned)
  }

  lemma ClosedIsGood(c: Chain, period: nat)
    requires Good(c, period)
    ensures Good(Closed(c, period), period + 1)
  {
    PruneAgrees(c.pruned, c.full, Values(c.counters, MapSum(Sizes(c.counters))), period);
    WriteKeepsBound(c.pruned, c.counters, period);
  }

  lemma CreditIsBounded(e: Entry, totalSize: nat)
    ensures CreditValue(e, totalSize) <= FULL_CREDIT_SCORE
  {
    TimesAtMost(FromRational(e.size, totalSize), FULL_CREDIT_SCORE);
  }

  lemma WriteKeepsBound(h: History, c: Counters, period: nat)
    requires Bounded(h)
    ensures Bounded(Pruned(h, c, period))
  {
    var total := MapSum(Sizes(c));
    forall a | a in c ensures Values(c, total)[a] <= FULL_CREDIT_SCORE {
      CreditIsBounded(c[a], total);
    }
  }

  /** Whatever values are written for a period, the histories agree on it and on the four before. */
  lemma PruneAgrees(a: History, b: History, values: map<Account, nat>, period: nat)
    requires AgreeFrom(a, b, period - HISTORY_DEPTH)
    ensures AgreeFrom(Prune(Write(a, values, period), period), Write(b, values, period), period + 1 - HISTORY_DEPTH)
  {
    var pruned, full := Prune(Write(a, values, period), period), Write(b, values, period);
    forall k: nat | period + 1 - HISTORY_DEPTH <= k ensures At(pruned, k) == At(full, k) {
      assert At(a, k) == At(b, k);
    }
  }

  lemma PeriodStep(now: nat, duration: nat)
    requires duration > 0
    ensures (now + 1) % duration == 0 ==> (now + 1) / duration == now / duration + 1
    ensures (now + 1) % duration != 0 ==> (now + 1) / duration == now / duration
  {
    var q, r := now / duration, now % duration;
    assert now == duration * q + r;
    if r + 1 == duration {
      DivUnique(now + 1, q + 1, 0, duration);
    } else {
      DivUnique(now + 1, q, r + 1, duration);
    }
  }

  lemma SameHistoriesAreGood(c: Chain, d: Chain, period: nat)
    requires Good(c, period) && d.pruned == c.pruned && d.full == c.full
    ensures Good(d, period)
  {
  }

  /** What a block does to the histories, said without dividing. */
  lemma BlockHistories(c: Chain, duration: nat, us: seq<Update>)
    requires duration > 0
    ensures var q, next := c.now / duration, Block(c, duration, us);
            if (c.now + 1) % duration == 0
            then next.now / duration == q + 1 && next.pruned == Closed(c, q).pruned && next.full == Closed(c, q).full
            else next.now / duration == q && next.pruned == c.pruned && next.full == c.full
  {
    PeriodStep(c.now, duration);
  }

  lemma BlockKeepsGood(c: Chain, duration: nat, us: seq<Update>)
    requires duration > 0 && Good(c, c.now / duration)
    ensures Good(Block(c, duration, us), Block(c, duration, us).now / duration)
  {
    var q, next := c.now / duration, Block(c, duration, us);
    BlockHistories(c, duration, us);
    if (c.now + 1) % duration == 0 {
      ClosedIsGood(c, q);
      SameHistoriesAreGood(Closed(c, q), next, q + 1);
    } else {
      SameHistoriesAreGood(c, next, q);
    }
  }

  lemma {:induction false} BlocksKeepGood(c: Chain, duration: nat, uss: seq<seq<Update>>)
    requires duration > 0 && Good(c, c.now / duration)
    ensures Good(Blocks(c, duration, uss), Blocks(c, duration, uss).now / duration)
    decreases |uss|
  {
    if uss != [] {
      BlockKeepsGood(c, duration, uss[0]);
      BlocksKeepGood(Block(c, duration, uss[0]), duration, uss[1..]);
    }
  }

  lemma {:induction false} ScoresAgree(a: History, b: History, last: nat, who: Account, i: nat)
    requires i <= HISTORY_DEPTH && AgreeFrom(a, b, last + 1 - HISTORY_DEPTH)
    ensures WeightedFrom(a, last, who, i) == WeightedFrom(b, last, who, i)
    decreases HISTORY_DEPTH - i
  {
    if i < HISTORY_DEPTH {
      ScoresAgree(a, b, last, who, i + 1);
      if last >= i {
        assert At(a, last - i) == At(b, last - i);
      }
    }
  }

  lemma {:induction false} WeightsBound(h: History, last: nat, who: Account, i: nat)
    requires i <= HISTORY_DEPTH && Bounded(h)
    ensures WeightedFrom(h, last, who, i)
         <= if i == 0 then 1000 else if i == 1 then 500 else if i == 2 then 300
            else if i == 3 then 150 else if i == 4 then 50 else 0
    decreases HISTORY_DEPTH - i
  {
    if i < HISTORY_DEPTH {
      WeightsBound(h, last, who, i + 1);
      if last >= i {
        TimesMonotone(Weight(i), Value(h, last - i, who), Weight(i), FULL_CREDIT_SCORE);
      }
    }
  }

  /**
   * Pruning is invisible: at every block of every run, whichever counters were recorded, the schedulers listed for
   * the last period and the score of each are those of the history that is never pruned, and no score exceeds 1000.
   */
  lemma PrunedScoresAreFullScores(duration: nat, uss: seq<seq<Update>>, who: Account)
    requires duration > 0
    ensures var c := Blocks(Chain(0, map[], map[], map[]), duration, uss);
            c.now / duration > 0 ==>
              var last := c.now / duration - 1;
              && At(c.pruned, last) == At(c.full, last)
              && Score(c.pruned, last, who) == Score(c.full, last, who) <= FULL_CREDIT_SCORE
  {
    var start := Chain(0, map[], map[], map[]);
    BlocksKeepGood(start, duration, uss);
    var c := Blocks(start, duration, uss);
    if c.now / duration > 0 {
      var last := c.now / duration - 1;
      assert At(c.pruned, last) == At(c.full, last);
      ScoresAgree(c.pruned, c.full, last, who, 0);
      WeightsBound(c.pruned, last, who, 0);
    }
  }

  lemma ValuesExtend(c: Counters, who: Account, e: Entry, total: nat, before: map<Account, nat>)
    ensures before + Values(c[who := e], total) == (before + Values(c, total))[who := CreditValue(e, total)]
  {
    assert Values(c[who := e], total) == Values(c, total)[who := CreditValue(e, total)];
  }

  function SizesAmong(c: Counters, left: set<Account>): map<Account, nat>
    requires left <= c.Keys
  {
    map a | a in left :: c[a].size
  }

  lemma SizesWithout(c: Counters, left: set<Account>, who: Account)
    requires left <= c.Keys && who in left
    ensures MapSum(SizesAmong(c, left)) == c[who].size + MapSum(SizesAmong(c, left - {who}))
  {
    MapSumAt(SizesAmong(c, left), who);
    assert SizesAmong(c, left) - {who} == SizesAmong(c, left - {who});
  }

  // ----- The storage items, updated in place

  class SchedulerCredit {
    var counters: Counters
    var history: History

    /** No counter has overflowed. */
    ghost predicate Valid()
      reads this
    {
      forall a :: a in counters ==> InRange(counters[a])
    }

    constructor ()
      ensures Valid() && counters == map[] && history == map[]
    {
      counters, history := map[], map[];
    }

    /** Adds to a counter, or refuses and changes nothing when it would leave its range. */
    method Record(u: Update) returns (ok: bool)
      requires Valid()
      modifies this`counters
      ensures Valid() && counters == Updated(old(counters), u)
      ensures var e, e' := Entry0(old(counters), u.who), Entry0(counters, u.who);
              && e'.size - e.size == (if ok && u.Proceed? then u.size else 0)
              && e'.punishments - e.punishments == (if ok && u.Punish? then 1 else 0)
      ensures !ok ==> counters == old(counters)
      ensures ok <==> if u.Proceed? then Entry0(old(counters), u.who).size + u.size <= U64_MAX
                      else Entry0(old(counters), u.who).punishments < U32_MAX
    {
      var e := if u.who in counters then counters[u.who] else Entry(0, 0);
      match u {
        case Proceed(who, size) =>
          ok := e.size + size <= U64_MAX;
          e := e.(size := e.size + size);
        case Punish(who) =>
          ok := e.punishments + 1 <= U32_MAX;
          e := e.(punishments := e.punishments + 1);
      }
      if ok {
        counters := counters[u.who := e];
      }
    }

    /** Turns the counters into the credit values of a period and drops the period out of the window. */
    method FigureCreditValues(period: nat)
      modifies this
      ensures counters == map[]
      ensures history == Pruned(old(history), old(counters), period)
    {
      var total := TotalSize();
      var values := InsertValues(At(history, period), total);
      history := history[period := values];
      counters := map[];
      if period >= HISTORY_DEPTH {
        history := history - {period - HISTORY_DEPTH};
      }
    }

    method InsertValues(before: map<Account, nat>, total: nat) returns (values: map<Account, nat>)
      ensures values == before + Values(counters, total)
    {
      values := before;
      ghost var done: Counters := map[];
      var left := counters.Keys;
      while left != {}
        invariant left <= counters.Keys && done.Keys == counters.Keys - left
        invariant forall a :: a in done ==> done[a] == counters[a]
        invariant values == before + Values(done, total)
        decreases left
      {
        var who :| who in left;
        ValuesExtend(done, who, counters[who], total, before);
        values := values[who := CreditValue(counters[who], total)];
        done := done[who := counters[who]];
        left := left - {who};
      }
      assert done == counters;
    }

    method TotalSize() returns (total: nat)
      ensures total == MapSum(Sizes(counters))
    {
      total := 0;
      var left := counters.Keys;
      assert SizesAmong(counters, left) == Sizes(counters);
      while left != {}
        invariant left <= counters.Keys
        invariant total + MapSum(SizesAmong(counters, left)) == MapSum(Sizes(counters))
        decreases left
      {
        var who :| who in left;
        SizesWithout(counters, left, who);
        total := total + counters[who].size;
        left := left - {who};
      }
      assert SizesAmong(counters, left) == map[];
    }

    method OnInitialize(now: nat, duration: nat)
      requires duration > 0
      modifies this
      ensures if now % duration == 0
              then counters == map[] && history == Pruned(old(history), old(counters), Sub(now / duration, 1))
              else counters == old(counters) && history == old(history)
    {
      if now % duration == 0 {
        FigureCreditValues(Sub(now / duration, 1));
      }
    }

    method CreditScore(last: nat, who: Account) returns (score: nat)
      ensures score == Score(history, last, who)
    {
      score := 0;
      for i := 0 to HISTORY_DEPTH
        invariant score + WeightedFrom(history, last, who, i) == Score(history, last, who)
      {
        if last >= i {
          score := score + Times(Weight(i), Value(history, last - i, who));
        }
      }
    }

    /** The score of every scheduler of the last period whose stash is found. */
    method FigureCreditScores(now: nat, duration: nat, stashOf: Account -> Option<Account>)
      returns (scores: map<Account, nat>)
      requires duration > 0
      ensures now / duration == 0 ==> scores == map[]
      ensures now / duration > 0 ==>
                var last := now / duration - 1;
                && (forall who :: who in At(history, last) && stashOf(who).Some? ==> stashOf(who).value in scores)
                && (forall s :: s in scores ==>
                      exists who :: && who in At(history, last) && stashOf(who) == Some(s)
                                    && scores[s] == Score(history, last, who))
    {
      scores := map[];
      if now / duration == 0 {
        return;
      }
      var last := now / duration - 1;
      var left := At(history, last).Keys;
      while left != {}
        invariant left <= At(history, last).Keys
        invariant forall who :: who in At(history, last) && who !in left && stashOf(who).Some? ==>
                    stashOf(who).value in scores
        invariant forall s :: s in scores ==>
                    exists who :: && who in At(history, last) && stashOf(who) == Some(s)
                                  && scores[s] == Score(history, last, who)
        decreases left
      {
        var who :| who in left;
        if stashOf(who).Some? {
          var score := CreditScore(last, who);
          scores := scores[stashOf(who).value := score];
        }
        left := left - {who};
      }
    }
  }
}

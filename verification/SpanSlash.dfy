/**
 * The slash of a stash is the maximum over a span, not the sum: span records, their pruning,
 * and the law over whole runs.
 */
module SpanSlash {
  import opened Base
  import opened PerThings
  import opened Spans

  /** The share of the reward paid on each detection. */
  const REWARD_F1: Perbill := Percent(50)

  datatype SpanRecord = SpanRecord(slashed: nat, paidOut: nat)

  function Without(records: map<nat, SpanRecord>, start: nat, end: nat): map<nat, SpanRecord> {
    map i | i in records && !(start <= i < end) :: records[i]
  }

  /** The slashing metadata of one stash: its spans once it has been inspected, and a record per slashed span. */
  datatype Metadata = Metadata(spans: Option<SpanList>, records: map<nat, SpanRecord>) {

    /** Records exist only for live span indices. */
    ghost predicate Valid() {
      && (spans.Some? ==> spans.value.Valid())
      && (forall i :: i in records ==> spans.Some? && spans.value.Live(i))
    }

    function Record(i: nat): SpanRecord {
      if i in records then records[i] else SpanRecord(0, 0)
    }

    function Fetch(windowStart: nat): SpanList {
      if spans.Some? then spans.value else New(windowStart)
    }

    /** What dropping a dirty inspection writes: the pruned spans, without the records of the pruned indices. */
    function Commit(s: SpanList, windowStart: nat): Metadata
      requires s.Valid()
    {
      PruneKeepsValid(s, windowStart);
      var pruned := s.Prune(windowStart);
      Metadata(Some(pruned), Without(records, s.Earliest(), pruned.Earliest()))
    }
  }

  type Stash = m: Metadata | m.Valid() witness Metadata(None, map[])

  const CLEAN: Stash := Metadata(None, map[])

  datatype Step =
    | Slash(era: nat, amount: nat, windowStart: nat, now: nat, proportion: Perbill)
    | Kick(era: nat, windowStart: nat, now: nat)
    | Forget(numSpans: nat)

  datatype Outcome = Outcome(stash: Stash, target: Option<nat>, slashed: nat, paid: nat)

  function Reward(r: SpanRecord, amount: nat, proportion: Perbill): nat {
    if r.slashed <= amount then Times(REWARD_F1, Sub(Times(proportion, amount), r.paidOut)) else 0
  }

  function Raise(r: SpanRecord, amount: nat, proportion: Perbill): SpanRecord {
    SpanRecord(Max(r.slashed, amount), r.paidOut + Reward(r, amount, proportion))
  }

  /** The spans after a slash in span `t`: a new maximum dates the slash, one in the ongoing span ends it. */
  function SpansAfter(s: SpanList, t: nat, era: nat, now: nat, raised: bool): SpanList {
    var dated := if raised then s.(lastNonzeroSlash := Max(s.lastNonzeroSlash, era)) else s;
    if t == s.index then dated.EndSpan(now) else dated
  }

  lemma SpansAfterAreValid(s: SpanList, t: nat, era: nat, now: nat, raised: bool)
    requires s.Valid()
    ensures var s' := SpansAfter(s, t, era, now, raised);
            s'.Valid() && s'.Earliest() == s.Earliest() && s.index <= s'.index
  {
    var dated := if raised then s.(lastNonzeroSlash := Max(s.lastNonzeroSlash, era)) else s;
    EndSpanKeepsThePast(dated, now, 0);
  }

  lemma CommitKeepsValid(m: Metadata, s: SpanList, windowStart: nat)
    requires m.Valid() && s.Valid() && m.spans.Some?
    requires s.Earliest() == m.spans.value.Earliest() && m.spans.value.index <= s.index
    ensures m.Commit(s, windowStart).Valid()
  {
    PruneKeepsValid(s, windowStart);
  }

  /** One fetched, inspected and dropped span record, or the clearing of the stash. */
  function Apply(m: Stash, step: Step): Outcome {
    match step
    case Slash(era, amount, windowStart, now, proportion) =>
      var s := m.Fetch(windowStart);
      var fetched: Stash := m.(spans := Some(s));
      var target := s.EraSpan(era);
      if target.None? then Outcome(fetched, None, 0, 0)
      else
        var r := m.Record(target.value);
        var r' := Raise(r, amount, proportion);
        var s' := SpansAfter(s, target.value, era, now, r.slashed < amount);
        if r' == r && s' == s then Outcome(fetched, target, 0, 0)
        else
          SpansPartitionEras(s, era);
          SpansAfterAreValid(s, target.value, era, now, r.slashed < amount);
          var written: Stash := if r' == r then fetched else fetched.(records := m.records[target.value := r']);
          CommitKeepsValid(written, s', windowStart);
          Outcome(written.Commit(s', windowStart), target, r'.slashed - r.slashed, r'.paidOut - r.paidOut)
    case Kick(era, windowStart, now) =>
      var s := m.Fetch(windowStart);
      var fetched: Stash := m.(spans := Some(s));
      if s.EraSpan(era) == Some(s.index) && s.EndSpan(now) != s then
        EndSpanKeepsThePast(s, now, 0);
        CommitKeepsValid(fetched, s.EndSpan(now), windowStart);
        Outcome(fetched.Commit(s.EndSpan(now), windowStart), None, 0, 0)
      else Outcome(fetched, None, 0, 0)
    case Forget(numSpans) =>
      if m.spans.None? || numSpans < |m.spans.value.Iter()| then Outcome(m, None, 0, 0)
      else
        var s := m.spans.value;
        Outcome(Metadata(None, Without(m.records, s.Earliest(), s.index + 1)), None, 0, 0)
  }

  /** Indices only move up, and a slash lands in the span its era lies in, if any does. */
  lemma StepMovesUp(m: Stash, step: Step)
    requires !step.Forget?
    ensures Apply(m, step).stash.spans.Some?
    ensures var s, s' := m.Fetch(step.windowStart), Apply(m, step).stash.spans.value;
            s.index <= s'.index && s.Earliest() <= s'.Earliest()
    ensures Apply(m, step).target == if step.Slash? then m.Fetch(step.windowStart).EraSpan(step.era) else None
    ensures Apply(m, step).target.Some? ==> m.Fetch(step.windowStart).Live(Apply(m, step).target.value)
  {
    var s := m.Fetch(step.windowStart);
    SpansPartitionEras(s, step.era);
    if step.Slash? && s.EraSpan(step.era).Some? {
      var t := s.EraSpan(step.era).value;
      var raised := m.Record(t).slashed < step.amount;
      SpansAfterAreValid(s, t, step.era, step.now, raised);
      PruneKeepsValid(SpansAfter(s, t, step.era, step.now, raised), step.windowStart);
    } else if step.Kick? {
      EndSpanKeepsThePast(s, step.now, 0);
      PruneKeepsValid(s.EndSpan(step.now), step.windowStart);
    }
  }

  /** Only the target's record changes among the live ones, by the rule of `Raise`. */
  lemma StepEffect(m: Stash, step: Step, i: nat)
    requires !step.Forget?
    ensures Apply(m, step).target.None? ==> Apply(m, step).slashed == Apply(m, step).paid == 0
    ensures Apply(m, step).target == Some(i) ==>
              && Apply(m, step).slashed == Sub(step.amount, m.Record(i).slashed)
              && Apply(m, step).paid == Reward(m.Record(i), step.amount, step.proportion)
    ensures Apply(m, step).stash.spans.Some?
    ensures Apply(m, step).stash.spans.value.Live(i) ==>
              Apply(m, step).stash.Record(i)
              == if Apply(m, step).target == Some(i) then Raise(m.Record(i), step.amount, step.proportion)
                 else m.Record(i)
  {
    StepMovesUp(m, step);
  }

  /** A report dates the slash exactly when it raises the record of a live span. */
  lemma SlashIsDated(m: Stash, step: Step)
    requires !step.Forget?
    ensures Apply(m, step).stash.spans.Some?
    ensures var s, s' := m.Fetch(step.windowStart), Apply(m, step).stash.spans.value;
            s'.lastNonzeroSlash == if Apply(m, step).slashed > 0 then Max(s.lastNonzeroSlash, step.era)
                                   else s.lastNonzeroSlash
  {
  }

  /**
   * A report in the ongoing span ends it, whether it slashes anything or not: every era after `now` opens the next
   * span. A report in an earlier span leaves the ongoing one open.
   */
  lemma ReportEndsOngoing(m: Stash, step: Step, era: nat)
    requires !step.Forget? && step.era <= step.now < era && step.windowStart <= era
    ensures Apply(m, step).stash.spans.Some?
    ensures var s, s' := m.Fetch(step.windowStart), Apply(m, step).stash.spans.value;
            && (s.lastStart <= step.era ==> s'.EraSpan(era) == Some(s.index + 1))
            && (step.era < s.lastStart <= era ==> s'.EraSpan(era) == Some(s.index))
  {
    var s := m.Fetch(step.windowStart);
    StepMovesUp(m, step);
    LookupFalls(s.lastStart, s.index, s.prior, step.era);
    if step.Kick? {
      EndSpanKeepsThePast(s, step.now, 0);
      PruneIsInvisible(s.EndSpan(step.now), step.windowStart, era);
    } else if s.EraSpan(step.era).Some? {
      var t := s.EraSpan(step.era).value;
      var raised := m.Record(t).slashed < step.amount;
      SpansAfterAreValid(s, t, step.era, step.now, raised);
      PruneIsInvisible(SpansAfter(s, t, step.era, step.now, raised), step.windowStart, era);
    }
  }

  /**
   * A report that changes neither a record nor the spans writes nothing but a first span list: it lies in no span, or
   * neither raises nor pays and does not end the ongoing span.
   */
  lemma DryReportWritesNothing(m: Stash, step: Step)
    requires !step.Forget?
    requires var s := m.Fetch(step.windowStart);
             var target := s.EraSpan(step.era);
             || target.None?
             || ((target.value < s.index || step.now < s.lastStart)
                 && (step.Slash? ==>
                       Raise(m.Record(target.value), step.amount, step.proportion) == m.Record(target.value)))
    ensures Apply(m, step).stash == m.(spans := Some(m.Fetch(step.windowStart)))
  {
    var s := m.Fetch(step.windowStart);
    LookupFalls(s.lastStart, s.index, s.prior, step.era);
  }

  /** Any other report prunes: no span is left that ended by the window start, and the ongoing one starts no earlier. */
  lemma ReportPrunes(m: Stash, step: Step, k: nat)
    requires !step.Forget? && Apply(m, step).stash != m.(spans := Some(m.Fetch(step.windowStart)))
    ensures Apply(m, step).stash.spans.Some?
    ensures var s' := Apply(m, step).stash.spans.value;
            && s'.lastStart >= step.windowStart
            && (0 < k < |s'.Iter()| ==>
                  s'.Iter()[k].length.Some? && s'.Iter()[k].start + s'.Iter()[k].length.value > step.windowStart)
  {
    var s := m.Fetch(step.windowStart);
    if step.Kick? {
      EndSpanKeepsThePast(s, step.now, 0);
      PrunedIsInWindow(s.EndSpan(step.now), step.windowStart, k);
    } else {
      var t := s.EraSpan(step.era).value;
      var raised := m.Record(t).slashed < step.amount;
      SpansAfterAreValid(s, t, step.era, step.now, raised);
      PrunedIsInWindow(SpansAfter(s, t, step.era, step.now, raised), step.windowStart, k);
    }
  }

  /** Each report promises half of what the proportion of its slash still allows, and nothing below the record. */
  lemma RewardIsHalf(r: SpanRecord, amount: nat, proportion: Perbill)
    ensures amount < r.slashed ==> Reward(r, amount, proportion) == 0
    ensures var left := Sub(Times(proportion, amount), r.paidOut);
            r.slashed <= amount ==> left - 1 <= 2 * Reward(r, amount, proportion) <= left
  {
  }

  // ----- Whole runs

  ghost function Run(m: Stash, steps: seq<Step>): Stash
  {
    if steps == [] then m
    else
      var before := Run(m, steps[..|steps| - 1]);
      Apply(before, steps[|steps| - 1]).stash
  }

  ghost function LastOutcome(m: Stash, steps: seq<Step>): Outcome
    requires steps != []
  {
    Apply(Run(m, steps[..|steps| - 1]), steps[|steps| - 1])
  }

  /** Everything ever added to the slash of the stash. */
  ghost function TotalSlashed(m: Stash, steps: seq<Step>): nat
  {
    if steps == [] then 0 else TotalSlashed(m, steps[..|steps| - 1]) + LastOutcome(m, steps).slashed
  }

  /** Everything ever promised to reporters out of that slash. */
  ghost function TotalPaid(m: Stash, steps: seq<Step>): nat
  {
    if steps == [] then 0 else TotalPaid(m, steps[..|steps| - 1]) + LastOutcome(m, steps).paid
  }

  lemma {:induction false} RunInTwo(m: Stash, a: seq<Step>, b: seq<Step>)
    ensures Run(m, a + b) == Run(Run(m, a), b)
    ensures TotalSlashed(m, a + b) == TotalSlashed(m, a) + TotalSlashed(Run(m, a), b)
    ensures TotalPaid(m, a + b) == TotalPaid(m, a) + TotalPaid(Run(m, a), b)
    decreases |b|
  {
    if b == [] {
      assert a + b == a;
    } else {
      var init, last := b[..|b| - 1], b[|b| - 1];
      RunInTwo(m, a, init);
      assert (a + b)[..|a + b| - 1] == a + init && (a + b)[|a + b| - 1] == last;
      assert LastOutcome(m, a + b) == LastOutcome(Run(m, a), b);
    }
  }

  lemma RunFirst(m: Stash, step: Step, rest: seq<Step>)
    ensures Run(m, [step] + rest) == Run(Apply(m, step).stash, rest)
    ensures TotalSlashed(m, [step] + rest) == Apply(m, step).slashed + TotalSlashed(Apply(m, step).stash, rest)
    ensures TotalPaid(m, [step] + rest) == Apply(m, step).paid + TotalPaid(Apply(m, step).stash, rest)
  {
    RunInTwo(m, [step], rest);
    assert [step][..0] == [];
    assert Run(m, []) == m;
  }

  ghost predicate LastHits(m: Stash, steps: seq<Step>, i: nat)
    requires steps != []
  {
    steps[|steps| - 1].Slash? && LastOutcome(m, steps).target == Some(i)
  }

  /** The largest slash reported for span `i`, each report counted where its era fell when it came in. */
  ghost function LargestReport(m: Stash, steps: seq<Step>, i: nat): nat
  {
    if steps == [] then 0
    else
      var before := LargestReport(m, steps[..|steps| - 1], i);
      if LastHits(m, steps, i) then Max(before, steps[|steps| - 1].amount) else before
  }

  ghost function PaidInSpan(m: Stash, steps: seq<Step>, i: nat): nat
  {
    if steps == [] then 0
    else PaidInSpan(m, steps[..|steps| - 1], i) + if LastHits(m, steps, i) then LastOutcome(m, steps).paid else 0
  }

  function SumTo(f: nat -> nat, n: nat): nat {
    if n == 0 then 0 else SumTo(f, n - 1) + f(n - 1)
  }

  lemma {:induction false} SumToGrows(f: nat -> nat, g: nat -> nat, n: nat, at: Option<nat>, added: nat)
    requires forall i :: 0 <= i < n ==> f(i) == g(i) + if at == Some(i) then added else 0
    ensures SumTo(f, n) == SumTo(g, n) + if at.Some? && at.value < n then added else 0
  {
    if n > 0 {
      SumToGrows(f, g, n - 1, at, added);
    }
  }

  lemma {:induction false} SumToBelow(f: nat -> nat, g: nat -> nat, n: nat)
    requires forall i :: 0 <= i < n ==> f(i) <= g(i)
    ensures SumTo(f, n) <= SumTo(g, n)
  {
    if n > 0 {
      SumToBelow(f, g, n - 1);
    }
  }

  ghost function SumOfLargest(m: Stash, steps: seq<Step>, n: nat): nat {
    SumTo(i => LargestReport(m, steps, i), n)
  }

  ghost function SumOfPaid(m: Stash, steps: seq<Step>, n: nat): nat {
    SumTo(i => PaidInSpan(m, steps, i), n)
  }

  ghost predicate NeverForgets(steps: seq<Step>) {
    forall k :: 0 <= k < |steps| ==> !steps[k].Forget?
  }

  lemma RewardIsCapped(r: SpanRecord, amount: nat, proportion: Perbill)
    ensures r.paidOut <= Times(proportion, Max(r.slashed, amount))
        ==> Raise(r, amount, proportion).paidOut <= Times(proportion, Max(r.slashed, amount))
    ensures r.paidOut <= r.slashed ==> Raise(r, amount, proportion).paidOut <= Max(r.slashed, amount)
  {
    var left := Sub(Times(proportion, amount), r.paidOut);
    TimesAtMost(REWARD_F1, left);
    TimesAtMost(proportion, amount);
  }

  /** Live records hold the maximum and the payouts of their span; dead and unborn indices are never hit again. */
  lemma {:induction false} RecordsAreMaxima(steps: seq<Step>, i: nat)
    requires NeverForgets(steps)
    ensures var m := Run(CLEAN, steps);
            && (m.spans.None? || m.spans.value.index < i ==>
                  LargestReport(CLEAN, steps, i) == PaidInSpan(CLEAN, steps, i) == 0)
            && (m.spans.Some? && m.spans.value.Live(i) ==>
                  m.Record(i) == SpanRecord(LargestReport(CLEAN, steps, i), PaidInSpan(CLEAN, steps, i)))
    ensures PaidInSpan(CLEAN, steps, i) <= LargestReport(CLEAN, steps, i)
    decreases |steps|
  {
    if steps != [] {
      var init, last := steps[..|steps| - 1], steps[|steps| - 1];
      RecordsAreMaxima(init, i);
      var before := Run(CLEAN, init);
      StepMovesUp(before, last);
      StepEffect(before, last, i);
      if LastHits(CLEAN, steps, i) {
        RewardIsCapped(before.Record(i), last.amount, last.proportion);
      }
    }
  }

  lemma ReportsGrow(m: Stash, steps: seq<Step>, i: nat)
    requires steps != []
    ensures var init, last := steps[..|steps| - 1], steps[|steps| - 1];
            && LargestReport(m, steps, i) == LargestReport(m, init, i)
                 + (if LastHits(m, steps, i) then Sub(last.amount, LargestReport(m, init, i)) else 0)
            && PaidInSpan(m, steps, i) == PaidInSpan(m, init, i)
                 + (if LastHits(m, steps, i) then LastOutcome(m, steps).paid else 0)
  {
  }

  /** The span that the last step of a run hits. */
  ghost function LastTarget(m: Stash, steps: seq<Step>): Option<nat>
    requires steps != []
  {
    if steps[|steps| - 1].Slash? then LastOutcome(m, steps).target else None
  }

  /** Extending a run changes the sums only at the span its last step hits. */
  lemma SumsGrowAtTarget(m: Stash, steps: seq<Step>, n: nat)
    requires steps != []
    ensures var init, last, t := steps[..|steps| - 1], steps[|steps| - 1], LastTarget(m, steps);
            var hit := t.Some? && t.value < n;
            && SumOfLargest(m, steps, n) == SumOfLargest(m, init, n)
                 + (if hit then Sub(last.amount, LargestReport(m, init, t.value)) else 0)
            && SumOfPaid(m, steps, n) == SumOfPaid(m, init, n) + (if hit then LastOutcome(m, steps).paid else 0)
  {
    var init, last, t := steps[..|steps| - 1], steps[|steps| - 1], LastTarget(m, steps);
    var added := if t.Some? then Sub(last.amount, LargestReport(m, init, t.value)) else 0;
    forall i: nat
      ensures LargestReport(m, steps, i) == LargestReport(m, init, i) + if t == Some(i) then added else 0
      ensures PaidInSpan(m, steps, i) == PaidInSpan(m, init, i) + if t == Some(i) then LastOutcome(m, steps).paid else 0
    {
      ReportsGrow(m, steps, i);
    }
    SumToGrows(i => LargestReport(m, steps, i), i => LargestReport(m, init, i), n, t, added);
    SumToGrows(i => PaidInSpan(m, steps, i), i => PaidInSpan(m, init, i), n, t, LastOutcome(m, steps).paid);
  }

  /**
   * Max, not sum: after any run of slashes and kicks since the last clear, in any era order and under any windows,
   * what was added to the slash of the stash is the sum over span indices of the largest slash reported for that
   * span; and reporters were promised the sum of the span payouts, never more than that slash.
   */
  lemma {:induction false} MaxNotSum(steps: seq<Step>, n: nat)
    requires NeverForgets(steps)
    requires Run(CLEAN, steps).spans.Some? ==> Run(CLEAN, steps).spans.value.index < n
    ensures TotalSlashed(CLEAN, steps) == SumOfLargest(CLEAN, steps, n)
    ensures TotalPaid(CLEAN, steps) == SumOfPaid(CLEAN, steps, n) <= TotalSlashed(CLEAN, steps)
    decreases |steps|
  {
    if steps == [] {
      SumsOfNothing(CLEAN, n);
    } else {
      var init, last := steps[..|steps| - 1], steps[|steps| - 1];
      SumsGrowAtTarget(CLEAN, steps, n);
      var t := LastOutcome(CLEAN, steps).target;
      StepMovesUp(Run(CLEAN, init), last);
      StepEffect(Run(CLEAN, init), last, if t.Some? then t.value else 0);
      if t.Some? {
        RecordsAreMaxima(init, t.value);
      }
      MaxNotSum(init, n);
    }
    PaidWithinLargest(steps, n);
  }

  lemma SumsOfNothing(m: Stash, n: nat)
    ensures SumOfLargest(m, [], n) == SumOfPaid(m, [], n) == 0
  {
    SumToZero(i => LargestReport(m, [], i), n);
    SumToZero(i => PaidInSpan(m, [], i), n);
  }

  lemma {:induction false} SumToZero(f: nat -> nat, n: nat)
    requires forall i :: 0 <= i < n ==> f(i) == 0
    ensures SumTo(f, n) == 0
  {
    if n > 0 {
      SumToZero(f, n - 1);
    }
  }

  lemma PaidWithinLargest(steps: seq<Step>, n: nat)
    requires NeverForgets(steps)
    ensures SumOfPaid(CLEAN, steps, n) <= SumOfLargest(CLEAN, steps, n)
  {
    forall i | 0 <= i < n ensures PaidInSpan(CLEAN, steps, i) <= LargestReport(CLEAN, steps, i) {
      RecordsAreMaxima(steps, i);
    }
    SumToBelow(i => PaidInSpan(CLEAN, steps, i), i => LargestReport(CLEAN, steps, i), n);
  }

  /**
   * With one reward proportion since the last clear, no span, pruned or live, promised more than that proportion of
   * the largest slash reported for it.
   */
  lemma {:induction false} SpansWithinProportion(steps: seq<Step>, i: nat, proportion: Perbill)
    requires NeverForgets(steps) && PaysAt(steps, proportion)
    ensures PaidInSpan(CLEAN, steps, i) <= Times(proportion, LargestReport(CLEAN, steps, i))
    decreases |steps|
  {
    if steps != [] {
      var init, last := steps[..|steps| - 1], steps[|steps| - 1];
      SpansWithinProportion(init, i, proportion);
      if LastHits(CLEAN, steps, i) {
        RecordsAreMaxima(init, i);
        var before := Run(CLEAN, init);
        StepEffect(before, last, i);
        var r := before.Record(i);
        TimesMonotone(proportion, r.slashed, proportion, Max(r.slashed, last.amount));
        RewardIsCapped(r, last.amount, proportion);
      }
    }
  }

  /**
   * Offences add up exactly when they lie in different spans: a second report about an era no later than the block of
   * the first falls in the same span and only raises it, one about a later era is charged in full.
   */
  lemma LaterOffencesAdd(first: Step, second: Step)
    requires first.Slash? && first.windowStart <= first.era <= first.now
    requires second.Slash? && second.windowStart <= second.era && first.windowStart <= second.era
    ensures TotalSlashed(CLEAN, [first, second])
         == if second.era <= first.now then Max(first.amount, second.amount) else first.amount + second.amount
  {
    RunPair(CLEAN, first, second);
    StepEffect(CLEAN, first, 0);
    StepMovesUp(CLEAN, first);
    SecondOffence(first, second);
  }

  lemma RunPair(m: Stash, first: Step, second: Step)
    ensures TotalSlashed(m, [first, second]) == Apply(m, first).slashed + Apply(Apply(m, first).stash, second).slashed
  {
    RunFirst(m, first, [second]);
    RunFirst(Apply(m, first).stash, second, []);
    assert [second] + [] == [second] && [first] + [second] == [first, second];
  }

  lemma SecondOffence(first: Step, second: Step)
    requires first.Slash? && first.windowStart <= first.era <= first.now
    requires second.Slash? && second.windowStart <= second.era && first.windowStart <= second.era
    ensures Apply(Apply(CLEAN, first).stash, second).slashed
         == if second.era <= first.now then Sub(second.amount, first.amount) else second.amount
  {
    var m := Apply(CLEAN, first).stash;
    if second.era <= first.now {
      FirstSpanLasts(first, second.era);
      StepMovesUp(m, second);
      StepEffect(m, second, 0);
    } else {
      ReportEndsOngoing(CLEAN, first, second.era);
      StepMovesUp(m, second);
      StepEffect(m, second, 1);
      NothingInSpanOne(first);
    }
  }

  lemma NothingInSpanOne(first: Step)
    requires first.Slash?
    ensures Apply(CLEAN, first).stash.Record(1) == SpanRecord(0, 0)
  {
  }

  lemma FirstSpanLasts(first: Step, era: nat)
    requires first.Slash? && first.windowStart <= first.era <= first.now && first.windowStart <= era <= first.now
    ensures Apply(CLEAN, first).stash.spans.value.EraSpan(era) == Some(0)
    ensures Apply(CLEAN, first).stash.Record(0).slashed == first.amount
  {
    var s := New(first.windowStart);
    var s' := SpansAfter(s, 0, first.era, first.now, 0 < first.amount);
    var dated := if 0 < first.amount then s.(lastNonzeroSlash := Max(s.lastNonzeroSlash, first.era)) else s;
    EndSpanKeepsThePast(dated, first.now, era);
    PruneIsInvisible(s', first.windowStart, era);
    StepEffect(CLEAN, first, 0);
    SpansPartitionEras(Apply(CLEAN, first).stash.spans.value, era);
  }

  /** The latest era for which a report raised a record. */
  ghost function LastRaise(m: Stash, steps: seq<Step>): nat {
    if steps == [] then 0
    else
      var before, last := LastRaise(m, steps[..|steps| - 1]), steps[|steps| - 1];
      if last.Slash? && LastOutcome(m, steps).slashed > 0 then Max(before, last.era) else before
  }

  /** Since the last clear, the spans of a stash are dated by the latest era it was slashed for. */
  lemma {:induction false} SpansAreDated(steps: seq<Step>)
    requires NeverForgets(steps)
    ensures var m := Run(CLEAN, steps);
            if m.spans.Some? then m.spans.value.lastNonzeroSlash == LastRaise(CLEAN, steps)
            else LastRaise(CLEAN, steps) == 0
    decreases |steps|
  {
    if steps != [] {
      var init, last := steps[..|steps| - 1], steps[|steps| - 1];
      SpansAreDated(init);
      SlashIsDated(Run(CLEAN, init), last);
    }
  }

  // ----- Runs with clears

  /** No record has promised more than it slashed. */
  ghost predicate PayIsCovered(m: Metadata) {
    forall i :: i in m.records ==> m.records[i].paidOut <= m.records[i].slashed
  }

  lemma StepKeepsCover(m: Stash, step: Step)
    requires PayIsCovered(m)
    ensures PayIsCovered(Apply(m, step).stash)
  {
    if step.Slash? {
      var target := m.Fetch(step.windowStart).EraSpan(step.era);
      if target.Some? {
        RewardIsCapped(m.Record(target.value), step.amount, step.proportion);
      }
    }
  }

  /** In any run, clears included, every stored record has promised at most what it slashed. */
  lemma {:induction false} RecordsStayCovered(m: Stash, steps: seq<Step>)
    requires PayIsCovered(m)
    ensures PayIsCovered(Run(m, steps))
    decreases |steps|
  {
    if steps != [] {
      RecordsStayCovered(m, steps[..|steps| - 1]);
      StepKeepsCover(Run(m, steps[..|steps| - 1]), steps[|steps| - 1]);
    }
  }

  /** No record has promised more than a proportion of what it slashed. */
  ghost predicate PayIsCapped(m: Metadata, proportion: Perbill) {
    forall i :: i in m.records ==> m.records[i].paidOut <= Times(proportion, m.records[i].slashed)
  }

  /** Every slash of a run pays at one proportion. */
  ghost predicate PaysAt(steps: seq<Step>, proportion: Perbill) {
    forall k :: 0 <= k < |steps| && steps[k].Slash? ==> steps[k].proportion == proportion
  }

  lemma StepKeepsCap(m: Stash, step: Step, proportion: Perbill)
    requires PayIsCapped(m, proportion) && (step.Slash? ==> step.proportion == proportion)
    ensures PayIsCapped(Apply(m, step).stash, proportion)
  {
    if step.Slash? {
      var target := m.Fetch(step.windowStart).EraSpan(step.era);
      if target.Some? {
        var r := m.Record(target.value);
        TimesMonotone(proportion, r.slashed, proportion, Max(r.slashed, step.amount));
        RewardIsCapped(r, step.amount, proportion);
      }
    }
  }

  /** With one reward proportion, in any run, clears included, every record stays within it of its slash. */
  lemma {:induction false} PaidWithinProportion(m: Stash, steps: seq<Step>, proportion: Perbill)
    requires PayIsCapped(m, proportion) && PaysAt(steps, proportion)
    ensures PayIsCapped(Run(m, steps), proportion)
    decreases |steps|
  {
    if steps != [] {
      PaidWithinProportion(m, steps[..|steps| - 1], proportion);
      StepKeepsCap(Run(m, steps[..|steps| - 1]), steps[|steps| - 1], proportion);
    }
  }

  /** A clear starts the stash afresh or changes nothing, and never slashes or pays. */
  lemma ForgetRestarts(m: Stash, numSpans: nat)
    ensures Apply(m, Forget(numSpans)).stash == CLEAN || Apply(m, Forget(numSpans)).stash == m
    ensures Apply(m, Forget(numSpans)).slashed == Apply(m, Forget(numSpans)).paid == 0
  {
    ForgetLeavesNothing(m, numSpans);
  }

  /** Whatever is reported and whenever the stash is cleared, reporters are promised at most what was slashed. */
  lemma {:induction false} PaidWithinSlashed(steps: seq<Step>)
    ensures TotalPaid(CLEAN, steps) <= TotalSlashed(CLEAN, steps)
    decreases |steps|
  {
    if NeverForgets(steps) {
      MaxNotSum(steps, if Run(CLEAN, steps).spans.Some? then Run(CLEAN, steps).spans.value.index + 1 else 0);
    } else {
      var k :| 0 <= k < |steps| && steps[k].Forget?;
      var a, b := steps[..k], steps[k + 1..];
      assert steps == a + ([steps[k]] + b);
      var m := Run(CLEAN, a);
      RunInTwo(CLEAN, a, [steps[k]] + b);
      RunFirst(m, steps[k], b);
      ForgetRestarts(m, steps[k].numSpans);
      if Apply(m, steps[k]).stash == CLEAN {
        PaidWithinSlashed(a);
        PaidWithinSlashed(b);
      } else {
        RunInTwo(CLEAN, a, b);
        PaidWithinSlashed(a + b);
      }
    }
  }

  /** An era keeps its span for as long as it stays covered, once no later step dates before it. */
  lemma {:induction false} EraKeepsItsSpan(m: Stash, steps: seq<Step>, era: nat)
    requires m.spans.Some? && NeverForgets(steps)
    requires forall k :: 0 <= k < |steps| ==> era <= steps[k].now
    ensures Run(m, steps).spans.Some?
    ensures var after := Run(m, steps).spans.value.EraSpan(era);
            after.Some? ==> after == m.spans.value.EraSpan(era)
    decreases |steps|
  {
    if steps != [] {
      var init, last := steps[..|steps| - 1], steps[|steps| - 1];
      EraKeepsItsSpan(m, init, era);
      EraKeepsItsSpanOnce(Run(m, init), last, era);
    }
  }

  lemma EraKeepsItsSpanOnce(m: Stash, step: Step, era: nat)
    requires m.spans.Some? && !step.Forget? && era <= step.now
    ensures Apply(m, step).stash.spans.Some?
    ensures var after := Apply(m, step).stash.spans.value.EraSpan(era);
            after.Some? ==> after == m.spans.value.EraSpan(era)
  {
    StepMovesUp(m, step);
    var s := m.spans.value;
    if step.Slash? && s.EraSpan(step.era).Some? {
      var t := s.EraSpan(step.era).value;
      var raised := m.Record(t).slashed < step.amount;
      var dated := if raised then s.(lastNonzeroSlash := Max(s.lastNonzeroSlash, step.era)) else s;
      EndSpanKeepsThePast(dated, step.now, era);
      PruneIsInvisible(SpansAfter(s, t, step.era, step.now, raised), step.windowStart, era);
    } else if step.Kick? {
      EndSpanKeepsThePast(s, step.now, era);
      PruneIsInvisible(s.EndSpan(step.now), step.windowStart, era);
    }
  }

  /** Clearing a stash with enough spans declared leaves no span and no record of it. */
  lemma ForgetLeavesNothing(m: Stash, numSpans: nat)
    ensures Apply(m, Forget(numSpans)).stash == CLEAN
       <==> m.spans.None? || |m.spans.value.prior| + 1 <= numSpans
  {
    if m.spans.Some? {
      var s := m.spans.value;
      assert forall i :: i in m.records ==> s.Earliest() <= i <= s.index;
    } else {
      assert m.records == map[];
    }
  }

  // ----- The storage items, updated in place

  class StashStore {
    var spans: Option<SpanList>
    var records: map<nat, SpanRecord>

    function Value(): Metadata
      reads this
    {
      Metadata(spans, records)
    }

    constructor (m: Stash)
      ensures Value() == m
    {
      spans, records := m.spans, m.records;
    }

    /** A slash reported for an era: fetch, compare, end the ongoing span when it was hit, write back on drop. */
    method Slash(era: nat, amount: nat, windowStart: nat, now: nat, proportion: Perbill)
      returns (slashed: nat, paid: nat)
      requires Value().Valid()
      modifies this
      ensures var o := Apply(old(Value()), Step.Slash(era, amount, windowStart, now, proportion));
              Value() == o.stash && slashed == o.slashed && paid == o.paid
    {
      var inspected := new InspectingSpans(this, windowStart, proportion);
      var target := inspected.CompareAndUpdateSpanSlash(era, amount);
      if target == Some(inspected.spans.spanIndex) {
        inspected.EndSpan(now);
      }
      inspected.Drop();
      slashed, paid := inspected.slashOf, inspected.paidOut;
    }

    /** A report that slashes nothing still ends the ongoing span when it falls there. */
    method KickOutIfRecent(era: nat, windowStart: nat, now: nat)
      requires Value().Valid()
      modifies this
      ensures Value() == Apply(old(Value()), Kick(era, windowStart, now)).stash
    {
      var inspected := new InspectingSpans(this, windowStart, 0);
      var target := inspected.spans.EraSpan(era);
      if target == Some(inspected.spans.spanIndex) {
        inspected.EndSpan(now);
      }
      inspected.Drop();
    }

    /** Clears a dead stash; refused when fewer spans are declared than exist. */
    method ClearStashMetadata(numSlashingSpans: nat) returns (ok: bool)
      requires Value().Valid()
      modifies this
      ensures Value() == Apply(old(Value()), Forget(numSlashingSpans)).stash
      ensures ok <==> Value() == CLEAN
    {
      ForgetLeavesNothing(Value(), numSlashingSpans);
      if spans.None? {
        return true;
      }
      ghost var was := spans.value;
      var s := new SlashingSpans(spans.value);
      var all := s.Iter();
      if numSlashingSpans < |all| {
        return false;
      }
      SpansPartitionEras(was, 0);
      spans := None;
      for i := 0 to |all|
        invariant spans == None
        invariant records == Without(old(records), was.index + 1 - i, was.index + 1)
      {
        assert all[i].index == was.index - i;
        records := records - {all[i].index};
      }
      return true;
    }
  }

  /** A fetched span list under inspection; dropping it writes back what changed. */
  class InspectingSpans {
    const store: StashStore
    const windowStart: nat
    const rewardProportion: Perbill
    const spans: SlashingSpans
    var dirty: bool
    var slashOf: nat
    var paidOut: nat

    constructor (store: StashStore, windowStart: nat, proportion: Perbill)
      requires store.Value().Valid()
      modifies store
      ensures this.store == store && this.windowStart == windowStart
      ensures rewardProportion == proportion && fresh(spans)
      ensures !dirty && slashOf == paidOut == 0
      ensures spans.Value() == old(store.Value()).Fetch(windowStart)
      ensures store.Value() == old(store.Value()).(spans := Some(spans.Value()))
    {
      this.store, this.windowStart, rewardProportion := store, windowStart, proportion;
      dirty, slashOf, paidOut := false, 0, 0;
      if store.spans.None? {
        store.spans := Some(New(windowStart));
      }
      spans := new SlashingSpans(store.spans.value);
    }

    method EndSpan(now: nat)
      requires spans.Value().Valid()
      modifies this`dirty, spans
      ensures spans.Value() == old(spans.Value()).EndSpan(now) && spans.Value().Valid()
      ensures dirty == (old(dirty) || spans.Value() != old(spans.Value()))
    {
      var ended := spans.EndSpan(now);
      dirty := ended || dirty;
    }

    /** Raises the record of the span holding the era to `slash` and pays the reward; says which span that was. */
    method CompareAndUpdateSpanSlash(slashEra: nat, slash: nat) returns (target: Option<nat>)
      requires spans.Value().Valid()
      modifies this, spans, store`records
      ensures target == old(spans.Value()).EraSpan(slashEra)
      ensures target.None? ==>
                store.records == old(store.records) && spans.Value() == old(spans.Value())
                && slashOf == old(slashOf) && paidOut == old(paidOut) && dirty == old(dirty)
      ensures target.Some? ==>
                var s, r := old(spans.Value()), old(store.Value()).Record(target.value);
                var r' := Raise(r, slash, rewardProportion);
                && spans.Value() == (if r.slashed < slash
                                     then s.(lastNonzeroSlash := Max(s.lastNonzeroSlash, slashEra)) else s)
                && store.records == (if r' == r then old(store.records)
                                     else old(store.records)[target.value := r'])
                && slashOf == old(slashOf) + r'.slashed - r.slashed
                && paidOut == old(paidOut) + r'.paidOut - r.paidOut
                && dirty == (old(dirty) || r' != r)
    {
      target := spans.EraSpan(slashEra);
      if target.None? {
        return;
      }
      var key := target.value;
      var record := if key in store.records then store.records[key] else SpanRecord(0, 0);
      var changed := false;
      var reward := 0;
      if record.slashed < slash {
        var difference := slash - record.slashed;
        record := record.(slashed := slash);
        reward := Times(REWARD_F1, Sub(Times(rewardProportion, slash), record.paidOut));
        slashOf := slashOf + difference;
        spans.lastNonzeroSlash := Max(spans.lastNonzeroSlash, slashEra);
        changed := true;
      } else if record.slashed == slash {
        reward := Times(REWARD_F1, Sub(Times(rewardProportion, slash), record.paidOut));
      }
      if reward != 0 {
        changed := true;
        record := record.(paidOut := record.paidOut + reward);
        paidOut := paidOut + reward;
      }
      if changed {
        dirty := true;
        store.records := store.records[key := record];
      }
    }

    method Drop()
      requires spans.Value().Valid()
      modifies spans, store
      ensures store.Value() == if dirty then old(store.Value()).Commit(old(spans.Value()), windowStart)
                               else old(store.Value())
    {
      if !dirty {
        return;
      }
      ghost var s := spans.Value();
      var pruned := spans.Prune(windowStart);
      if pruned.Some? {
        var (start, end) := pruned.value;
        for i := start to end
          invariant spans.Value() == s.Prune(windowStart) && store.spans == old(store.spans)
          invariant store.records == Without(old(store.records), start, i)
        {
          store.records := store.records - {i};
        }
      } else {
        assert Without(store.records, s.Earliest(), spans.Value().Earliest()) == store.records;
      }
      store.spans := Some(spans.Value());
    }
  }
}

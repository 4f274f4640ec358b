/** Slashing spans: a stash's timeline cut into spans, stored newest first as relative lengths. */
module Spans {
  import opened Base

  /** A span of eras; the ongoing span has no length. */
  datatype Span = Span(index: nat, start: nat, length: Option<nat>) {
    predicate ContainsEra(era: nat) {
      start <= era && (length.None? || era < start + length.value)
    }
  }

  /** `prior` holds the lengths of the ended spans, each relative to the span after it. */
  datatype SpanList = SpanList(index: nat, lastStart: nat, lastNonzeroSlash: nat, prior: seq<nat>) {

    predicate Valid() {
      && |prior| <= index
      && Sum(prior) <= lastStart
      && forall i :: 0 <= i < |prior| ==> prior[i] > 0
    }

    function Earliest(): nat
      requires Valid()
    {
      index - |prior|
    }

    predicate Live(i: nat)
      requires Valid()
    {
      Earliest() <= i <= index
    }

    function Iter(): seq<Span>
      requires Valid()
    {
      [Span(index, lastStart, None)] + PriorSpans(lastStart, index, prior)
    }

    /** The index of the span holding `era`, if any span does. */
    function EraSpan(era: nat): Option<nat>
      requires Valid()
    {
      Lookup(lastStart, index, prior, era)
    }

    function EndSpan(now: nat): SpanList {
      if now + 1 <= lastStart then this
      else SpanList(index + 1, now + 1, lastNonzeroSlash, [now + 1 - lastStart] + prior)
    }

    function Prune(windowStart: nat): SpanList
      requires Valid()
    {
      this.(prior := prior[..Kept(lastStart, prior, windowStart)], lastStart := Max(lastStart, windowStart))
    }
  }

  function New(windowStart: nat): (s: SpanList)
    ensures s.Valid()
  {
    SpanList(0, windowStart, 0, [])
  }

  function PriorSpans(start: nat, index: nat, prior: seq<nat>): (spans: seq<Span>)
    requires |prior| <= index && Sum(prior) <= start
    ensures |spans| == |prior|
    decreases |prior|
  {
    if prior == [] then []
    else
      [Span(index - 1, start - prior[0], Some(prior[0]))]
      + PriorSpans(start - prior[0], index - 1, prior[1..])
  }

  function Lookup(start: nat, index: nat, prior: seq<nat>, era: nat): Option<nat>
    requires |prior| <= index && Sum(prior) <= start
    decreases |prior|
  {
    if start <= era then Some(index)
    else if prior == [] then None
    else Lookup(start - prior[0], index - 1, prior[1..], era)
  }

  /** How many prior spans outlive the window start: the ended spans end later the newer they are. */
  function Kept(start: nat, prior: seq<nat>, windowStart: nat): (k: nat)
    requires Sum(prior) <= start
    ensures k <= |prior|
    decreases |prior|
  {
    if prior == [] || start <= windowStart then 0
    else 1 + Kept(start - prior[0], prior[1..], windowStart)
  }

  lemma {:induction false} PriorSpanAt(start: nat, index: nat, prior: seq<nat>, k: nat)
    requires |prior| <= index && Sum(prior) <= start && k < |prior|
    ensures Sum(prior[..k]) + prior[k] == Sum(prior[..k + 1]) <= start
    ensures PriorSpans(start, index, prior)[k]
         == Span(index - 1 - k, start - Sum(prior[..k + 1]), Some(prior[k]))
    decreases k
  {
    SumStep(prior, k);
    SumPrefixes(prior, k, k + 1);
    if k > 0 {
      PriorSpanAt(start - prior[0], index - 1, prior[1..], k - 1);
      assert prior[..k + 1][1..] == prior[1..][..k];
    } else {
      assert prior[..1] == [prior[0]];
    }
  }

  /** Successive spans touch and their indices fall by one. */
  lemma SpansAreAdjacent(s: SpanList, k: nat)
    requires s.Valid() && k + 1 < |s.Iter()|
    ensures var newer, older := s.Iter()[k], s.Iter()[k + 1];
            && older.length.Some? && older.length.value > 0
            && older.start + older.length.value == newer.start
            && older.index == newer.index - 1
  {
    PriorSpanAt(s.lastStart, s.index, s.prior, k);
    if k > 0 {
      PriorSpanAt(s.lastStart, s.index, s.prior, k - 1);
    } else {
      assert s.prior[..0] == [];
    }
  }

  lemma {:induction false} LookupIsFind(start: nat, index: nat, prior: seq<nat>, era: nat, k: nat)
    requires |prior| <= index && Sum(prior) <= start && k < |prior|
    requires forall i :: 0 <= i < |prior| ==> prior[i] > 0
    requires era < start
    ensures PriorSpans(start, index, prior)[k].ContainsEra(era)
       <==> Lookup(start, index, prior, era) == Some(index - 1 - k)
    decreases |prior|
  {
    var next := start - prior[0];
    if k == 0 {
      LookupFalls(next, index - 1, prior[1..], era);
    } else if era < next {
      LookupIsFind(next, index - 1, prior[1..], era, k - 1);
    } else {
      PriorSpanAt(start, index, prior, k);
      PriorSpanAt(start, index, prior, 0);
      SumPrefixes(prior, 1, k);
      assert prior[..1] == [prior[0]];
    }
  }

  /** A lookup answers with a live index, and with none only before the earliest start. */
  lemma {:induction false} LookupFalls(start: nat, index: nat, prior: seq<nat>, era: nat)
    requires |prior| <= index && Sum(prior) <= start
    ensures Lookup(start, index, prior, era).None? <==> era < start - Sum(prior)
    ensures var r := Lookup(start, index, prior, era);
            r.Some? ==> index - |prior| <= r.value <= index && (r.value == index <==> start <= era)
    decreases |prior|
  {
    if era < start && prior != [] {
      LookupFalls(start - prior[0], index - 1, prior[1..], era);
    }
  }

  /** Every era from the earliest start on lies in exactly one span, the one `EraSpan` names; no other era does. */
  lemma SpansPartitionEras(s: SpanList, era: nat)
    requires s.Valid()
    ensures |s.Iter()| == |s.prior| + 1
    ensures s.EraSpan(era).None? <==> era < s.lastStart - Sum(s.prior)
    ensures s.EraSpan(era).Some? ==> s.Live(s.EraSpan(era).value)
    ensures forall k :: 0 <= k < |s.Iter()| ==>
              && s.Iter()[k].index == s.index - k
              && (s.Iter()[k].ContainsEra(era) <==> s.EraSpan(era) == Some(s.index - k))
  {
    LookupFalls(s.lastStart, s.index, s.prior, era);
    forall k | 0 <= k < |s.Iter()|
      ensures s.Iter()[k].index == s.index - k
      ensures s.Iter()[k].ContainsEra(era) <==> s.EraSpan(era) == Some(s.index - k)
    {
      if k > 0 {
        PriorSpanAt(s.lastStart, s.index, s.prior, k - 1);
        if era < s.lastStart {
          LookupIsFind(s.lastStart, s.index, s.prior, era, k - 1);
        } else {
          SumPrefixes(s.prior, k - 1, k);
        }
      }
    }
  }

  lemma FoundSomewhere(s: SpanList, era: nat)
    requires s.Valid()
    ensures s.EraSpan(era).Some? ==> exists k :: 0 <= k < |s.Iter()| && s.Iter()[k].ContainsEra(era)
  {
    SpansPartitionEras(s, era);
    if s.EraSpan(era).Some? {
      assert s.Iter()[s.index - s.EraSpan(era).value].ContainsEra(era);
    }
  }

  /** Ending a span moves only the future: every era up to `now` keeps its span, later eras open a new one. */
  lemma EndSpanKeepsThePast(s: SpanList, now: nat, era: nat)
    requires s.Valid()
    ensures s.EndSpan(now).Valid()
    ensures s.EndSpan(now).Earliest() == s.Earliest()
    ensures era <= now ==> s.EndSpan(now).EraSpan(era) == s.EraSpan(era)
    ensures s.EndSpan(now) != s ==> s.lastStart <= now
    ensures s.lastStart <= now && now < era ==> s.EndSpan(now).EraSpan(era) == Some(s.index + 1)
  {
    if s.lastStart <= now {
      var t := s.EndSpan(now);
      assert t.prior[1..] == s.prior;
      assert forall i :: 0 < i < |t.prior| ==> t.prior[i] == s.prior[i - 1];
    }
  }

  lemma {:induction false} KeptSplits(start: nat, prior: seq<nat>, windowStart: nat, k: nat)
    requires Sum(prior) <= start && k < |prior|
    requires forall i :: 0 <= i < |prior| ==> prior[i] > 0
    ensures Sum(prior[..k]) <= start
    ensures k < Kept(start, prior, windowStart) <==> start - Sum(prior[..k]) > windowStart
    decreases |prior|
  {
    SumPrefixes(prior, 0, k);
    if k > 0 {
      SumPrefixes(prior[1..], 0, k - 1);
      assert prior[..k][1..] == prior[1..][..k - 1];
      KeptSplits(start - prior[0], prior[1..], windowStart, k - 1);
    }
  }

  /** A prior span is dropped exactly when it ended by the window start, and the dropped ones are the oldest indices. */
  lemma PruneIsExact(s: SpanList, windowStart: nat, k: nat)
    requires s.Valid() && 0 < k < |s.Iter()|
    ensures s.Prune(windowStart).Valid()
    ensures var span := s.Iter()[k];
            && span.length.Some?
            && span.index == s.index - k
            && (span.start + span.length.value <= windowStart
                <==> s.Earliest() <= span.index < s.Prune(windowStart).Earliest())
  {
    PruneKeepsValid(s, windowStart);
    PriorSpanAt(s.lastStart, s.index, s.prior, k - 1);
    KeptSplits(s.lastStart, s.prior, windowStart, k - 1);
  }

  lemma PruneKeepsValid(s: SpanList, windowStart: nat)
    requires s.Valid()
    ensures s.Prune(windowStart).Valid()
    ensures s.Earliest() <= s.Prune(windowStart).Earliest()
    ensures s.lastStart <= windowStart ==> s.Prune(windowStart).prior == []
  {
    var k := Kept(s.lastStart, s.prior, windowStart);
    SumPrefixes(s.prior, 0, k);
  }

  lemma {:induction false} LookupAfterKept(start: nat, index: nat, prior: seq<nat>, windowStart: nat, era: nat)
    requires |prior| <= index && Sum(prior) <= start && windowStart <= era
    ensures var kept := prior[..Kept(start, prior, windowStart)];
            Sum(kept) <= start && Lookup(start, index, kept, era) == Lookup(start, index, prior, era)
    decreases |prior|
  {
    var k := Kept(start, prior, windowStart);
    SumPrefixes(prior, 0, k);
    if k > 0 {
      LookupAfterKept(start - prior[0], index - 1, prior[1..], windowStart, era);
      assert prior[..k][1..] == prior[1..][..k - 1];
    }
  }

  /** What pruning leaves reaches into the window. */
  lemma PrunedIsInWindow(s: SpanList, windowStart: nat, k: nat)
    requires s.Valid()
    ensures s.Prune(windowStart).Valid() && s.Prune(windowStart).lastStart >= windowStart
    ensures 0 < k < |s.Prune(windowStart).Iter()| ==>
              var span := s.Prune(windowStart).Iter()[k];
              span.length.Some? && span.start + span.length.value > windowStart
  {
    var pruned := s.Prune(windowStart);
    PruneKeepsValid(s, windowStart);
    if 0 < k < |pruned.Iter()| {
      PruneIsExact(s, windowStart, k);
      assert pruned.lastStart == s.lastStart && pruned.prior == s.prior[..|pruned.prior|];
      PriorSpanAt(s.lastStart, s.index, s.prior, k - 1);
      PriorSpanAt(pruned.lastStart, pruned.index, pruned.prior, k - 1);
      assert pruned.prior[..k] == s.prior[..k];
    }
  }

  /** A window that starts after the ongoing span leaves every earlier era without a span. */
  lemma PruneForgetsThePast(s: SpanList, windowStart: nat, era: nat)
    requires s.Valid() && s.lastStart <= windowStart && era < windowStart
    ensures s.Prune(windowStart).Valid() && s.Prune(windowStart).EraSpan(era).None?
  {
    PruneKeepsValid(s, windowStart);
  }

  /**
   * Pruning is invisible inside the window: an era at or after its start keeps its span, or stays uncovered;
   * and no era before or after gains one.
   */
  lemma PruneIsInvisible(s: SpanList, windowStart: nat, era: nat)
    requires s.Valid()
    ensures s.Prune(windowStart).Valid()
    ensures windowStart <= era ==> s.Prune(windowStart).EraSpan(era) == s.EraSpan(era)
    ensures s.Prune(windowStart).EraSpan(era).Some? ==> s.Prune(windowStart).EraSpan(era) == s.EraSpan(era)
  {
    PruneKeepsValid(s, windowStart);
    if windowStart <= era {
      LookupAfterKept(s.lastStart, s.index, s.prior, windowStart, era);
    } else if windowStart < s.lastStart {
      LookupPrefix(s.lastStart, s.index, s.prior, Kept(s.lastStart, s.prior, windowStart), era);
    }
  }

  lemma {:induction false} LookupPrefix(start: nat, index: nat, prior: seq<nat>, k: nat, era: nat)
    requires |prior| <= index && Sum(prior) <= start && k <= |prior|
    ensures Sum(prior[..k]) <= start
    ensures var r := Lookup(start, index, prior[..k], era);
            r.Some? ==> r == Lookup(start, index, prior, era)
    decreases k
  {
    SumPrefixes(prior, 0, k);
    if k > 0 {
      LookupPrefix(start - prior[0], index - 1, prior[1..], k - 1, era);
      assert prior[..k][1..] == prior[1..][..k - 1];
    }
  }

  datatype Change = End(now: nat) | PruneAt(windowStart: nat)

  /** Every reachable list is valid, its ongoing span never loses its index, and its earliest index only moves up. */
  function AfterChanges(s: SpanList, changes: seq<Change>): (r: SpanList)
    requires s.Valid()
    ensures r.Valid() && s.index <= r.index && s.Earliest() <= r.Earliest() && s.lastStart <= r.lastStart
    decreases |changes|
  {
    if changes == [] then s
    else
      match changes[0]
      case End(now) => EndSpanKeepsThePast(s, now, 0); AfterChanges(s.EndSpan(now), changes[1..])
      case PruneAt(windowStart) => PruneKeepsValid(s, windowStart); AfterChanges(s.Prune(windowStart), changes[1..])
  }

  /** The record as the pallet updates it in place. */
  class SlashingSpans {
    var spanIndex: nat
    var lastStart: nat
    var lastNonzeroSlash: nat
    var prior: seq<nat>

    function Value(): SpanList
      reads this
    {
      SpanList(spanIndex, lastStart, lastNonzeroSlash, prior)
    }

    constructor (s: SpanList)
      ensures Value() == s
    {
      spanIndex, lastStart, lastNonzeroSlash, prior := s.index, s.lastStart, s.lastNonzeroSlash, s.prior;
    }

    method EndSpan(now: nat) returns (started: bool)
      requires Value().Valid()
      modifies this
      ensures Value() == old(Value()).EndSpan(now)
      ensures Value().Valid()
      ensures started <==> Value() != old(Value())
    {
      EndSpanKeepsThePast(Value(), now, 0);
      var nextStart := now + 1;
      if nextStart <= lastStart {
        return false;
      }
      var lastLength := nextStart - lastStart;
      prior := [lastLength] + prior;
      lastStart := nextStart;
      spanIndex := spanIndex + 1;
      return true;
    }

    /** All spans, newest first; the running start and index never underflow. */
    method Iter() returns (spans: seq<Span>)
      requires Value().Valid()
      ensures spans == Value().Iter()
    {
      var start, index := lastStart, spanIndex;
      spans := [Span(index, start, None)];
      for i := 0 to |prior|
        invariant |prior| - i <= index && Sum(prior[i..]) <= start
        invariant Value().Iter() == spans + PriorSpans(start, index, prior[i..])
      {
        start := start - prior[i];
        index := index - 1;
        spans := spans + [Span(index, start, Some(prior[i]))];
        assert prior[i..][1..] == prior[i + 1..];
      }
    }

    /** The first span, newest first, that contains the era. */
    method EraSpan(era: nat) returns (index: Option<nat>)
      requires Value().Valid()
      ensures index == Value().EraSpan(era)
    {
      SpansPartitionEras(Value(), era);
      FoundSomewhere(Value(), era);
      var spans := Iter();
      for i := 0 to |spans|
        invariant forall k :: 0 <= k < i ==> !spans[k].ContainsEra(era)
      {
        if spans[i].ContainsEra(era) {
          return Some(spans[i].index);
        }
      }
      return None;
    }

    /** The position of the first prior span that ends in the window's past, or the number of prior spans. */
    method FindPruned(windowStart: nat) returns (o: nat)
      requires Value().Valid()
      ensures o == Kept(lastStart, prior, windowStart) <= |prior|
    {
      var spans := Iter();
      o := 0;
      while o < |prior|
        invariant o <= Kept(lastStart, prior, windowStart) <= |prior| == |spans| - 1
      {
        var span := spans[o + 1];
        KeptAtSpan(Value(), windowStart, o);
        if span.start + span.length.value <= windowStart {
          return;
        }
        o := o + 1;
      }
    }

    /** Drops the spans that ended by the window start and returns the range of their indices. */
    method Prune(windowStart: nat) returns (pruned: Option<(nat, nat)>)
      requires Value().Valid()
      modifies this
      ensures Value() == old(Value()).Prune(windowStart)
      ensures Value().Valid()
      ensures pruned == if Value().Earliest() == old(Value()).Earliest() then None
                        else Some((old(Value()).Earliest(), Value().Earliest()))
    {
      PruneKeepsValid(Value(), windowStart);
      var o := FindPruned(windowStart);
      var earliest := spanIndex - |prior|;
      pruned := None;
      if o < |prior| {
        prior := prior[..o];
        pruned := Some((earliest, spanIndex - |prior|));
      }
      lastStart := Max(lastStart, windowStart);
    }
  }

  lemma KeptAtSpan(s: SpanList, windowStart: nat, o: nat)
    requires s.Valid() && o < |s.prior|
    ensures var span := s.Iter()[o + 1];
            && span.length.Some?
            && (span.start + span.length.value > windowStart
                <==> o < Kept(s.lastStart, s.prior, windowStart))
  {
    PriorSpanAt(s.lastStart, s.index, s.prior, o);
    KeptSplits(s.lastStart, s.prior, windowStart, o);
  }
}

/** Giving the fragments of a file to storage miners: random choice of miners, then round-robin by free space. */
module Allocation {
  import opened Base
  import opened PerThings

  type Hash = nat

  /** 16 MiB and 8 MiB. */
  const SEGMENT_SIZE: nat := 16_777_216
  const FRAGMENT_SIZE: nat := 8_388_608

  /** The optimal number of miners, and of fragments in a segment: 1.5 segments over a fragment. */
  const MINER_COUNT: nat := SEGMENT_SIZE * 15 / 10 / FRAGMENT_SIZE

  /** The size of a number of fragments, 8 MiB each. */
  function Bytes(fragments: nat): nat {
    fragments * 8_388_608
  }
  const USIZE_MAX: nat := 0xFFFF_FFFF_FFFF_FFFF

  datatype Segment = Segment(hash: Hash, fragments: seq<Hash>)

  /** `check_file_spec`: every segment has as many fragments as the network asks for. */
  predicate WellFormed(segments: seq<Segment>) {
    forall i :: 0 <= i < |segments| ==> |segments[i].fragments| == MINER_COUNT
  }

  function AllFragments(segments: seq<Segment>): seq<Hash> {
    if segments == [] then [] else segments[0].fragments + AllFragments(segments[1..])
  }

  datatype Error = NotMiner | BugInvalid | NodesInsufficient | PanicOverflow

  datatype Result<+T> = Ok(value: T) | Err(error: Error)

  // ----- Choosing miners

  datatype MinerView = MinerView(positive: bool, idle: nat)

  datatype Candidate = Candidate(miner: Account, idle: nat)

  ghost predicate Eligible(c: Candidate, miners: map<Account, MinerView>, all: seq<Account>, segments: nat) {
    && c.miner in all && c.miner in miners
    && miners[c.miner] == MinerView(true, c.idle)
    && c.idle > Bytes(segments)
  }

  function Idles(candidates: seq<Candidate>): (idle: seq<nat>)
    ensures |idle| == |candidates|
  {
    seq(|candidates|, j requires 0 <= j < |candidates| => candidates[j].idle)
  }

  predicate Fit(a: Account, miners: map<Account, MinerView>, segments: nat) {
    a in miners && miners[a].positive && miners[a].idle > Bytes(segments)
  }

  ghost predicate Chosen(selected: seq<Candidate>, a: Account) {
    exists i :: 0 <= i < |selected| && selected[i].miner == a
  }

  /** The miners drawn so far: the fit ones are chosen, each once, and the rest of the pool is untouched. */
  ghost predicate Drawing(all: seq<Account>, miners: map<Account, MinerView>, segments: nat,
                          pool: seq<Account>, selected: seq<Candidate>) {
    && Distinct(pool) && (forall i :: 0 <= i < |pool| ==> pool[i] in all && !Chosen(selected, pool[i]))
    && (forall i :: 0 <= i < |selected| ==> Eligible(selected[i], miners, all, segments))
    && (forall i, j :: 0 <= i < j < |selected| ==> selected[i].miner != selected[j].miner)
    && (forall a :: a in all && a !in pool && Fit(a, miners, segments) ==> Chosen(selected, a))
  }

  function Without(pool: seq<Account>, index: nat): seq<Account>
    requires index < |pool|
  {
    pool[..index] + pool[index + 1..]
  }

  lemma WithoutLacks(pool: seq<Account>, index: nat)
    requires index < |pool| && Distinct(pool)
    ensures |Without(pool, index)| == |pool| - 1 && Distinct(Without(pool, index))
    ensures forall a :: a in Without(pool, index) <==> a in pool && a != pool[index]
  {
    var rest := Without(pool, index);
    forall a | a in pool && a != pool[index] ensures a in rest {
      var i :| 0 <= i < |pool| && pool[i] == a;
      assert a == rest[if i < index then i else i - 1];
    }
  }

  function Kept(selected: seq<Candidate>, a: Account, miners: map<Account, MinerView>, segments: nat): seq<Candidate> {
    if Fit(a, miners, segments) then selected + [Candidate(a, miners[a].idle)] else selected
  }

  lemma KeptChosen(selected: seq<Candidate>, a: Account, miners: map<Account, MinerView>, segments: nat)
    ensures forall b :: Chosen(Kept(selected, a, miners, segments), b)
                   <==> Chosen(selected, b) || (b == a && Fit(a, miners, segments))
  {
    var kept := Kept(selected, a, miners, segments);
    forall b | Chosen(selected, b) ensures Chosen(kept, b) {
      var i :| 0 <= i < |selected| && selected[i].miner == b;
      assert kept[i].miner == b;
    }
    if Fit(a, miners, segments) {
      assert kept[|selected|].miner == a;
    }
  }

  lemma DrawOne(all: seq<Account>, miners: map<Account, MinerView>, segments: nat,
                pool: seq<Account>, selected: seq<Candidate>, index: nat)
    requires Drawing(all, miners, segments, pool, selected) && index < |pool|
    ensures Drawing(all, miners, segments, Without(pool, index), Kept(selected, pool[index], miners, segments))
  {
    WithoutLacks(pool, index);
    KeptChosen(selected, pool[index], miners, segments);
    var kept := Kept(selected, pool[index], miners, segments);
    forall i, j | 0 <= i < j < |kept| ensures kept[i].miner != kept[j].miner {
      assert i < |selected| ==> Chosen(selected, selected[i].miner);
    }
  }

  /**
   * Draws up to fifteen miners without replacement and keeps the first three that are positive and roomy. With at
   * most fifteen miners none is overlooked, and only a file below three segments is refused for lack of total space.
   */
  method SelectMiners(all: seq<Account>, miners: map<Account, MinerView>, segments: nat, random: nat -> nat)
    returns (r: Result<seq<Candidate>>)
    requires Distinct(all)
    ensures r.Ok? ==>
              && 0 < |r.value| <= MINER_COUNT
              && (forall i :: 0 <= i < |r.value| ==> Eligible(r.value[i], miners, all, segments))
              && (forall i, j :: 0 <= i < j < |r.value| ==> r.value[i].miner != r.value[j].miner)
              && Sum(Idles(r.value)) > SEGMENT_SIZE * 15 / 10
              && (|all| <= MINER_COUNT * 5 && |r.value| < MINER_COUNT ==>
                    forall a :: a in all && Fit(a, miners, segments) ==> Chosen(r.value, a))
    ensures r == Err(NotMiner) ==> exists a :: a in all && a !in miners
    ensures r == Err(BugInvalid) && |all| <= MINER_COUNT * 5 ==> forall a :: a in all ==> !Fit(a, miners, segments)
    ensures r == Err(NodesInsufficient) ==> segments < 3
    ensures all == [] ==> r == Err(BugInvalid)
    ensures r != Err(PanicOverflow)
  {
    var pool, selected, drawn, seed, totalIdle := all, [], 0, 0, 0;
    while pool != [] && drawn < MINER_COUNT * 5 && |selected| < MINER_COUNT
      invariant |selected| <= MINER_COUNT && |pool| + drawn == |all|
      invariant totalIdle == Sum(Idles(selected))
      invariant Drawing(all, miners, segments, pool, selected)
      decreases |pool|
    {
      var index := random(seed) % |pool|;
      seed := seed + 1;
      drawn := drawn + 1;
      var miner := pool[index];
      DrawOne(all, miners, segments, pool, selected, index);
      pool := pool[..index] + pool[index + 1..];
      if miner !in miners {
        return Err(NotMiner);
      }
      if miners[miner].positive && miners[miner].idle > Bytes(segments) {
        totalIdle := totalIdle + miners[miner].idle;
        IdlesAppend(selected, Candidate(miner, miners[miner].idle));
        selected := selected + [Candidate(miner, miners[miner].idle)];
      }
    }
    if selected == [] {
      return Err(BugInvalid);
    }
    if totalIdle <= SEGMENT_SIZE * 15 / 10 {
      return Err(NodesInsufficient);
    }
    r := Ok(selected);
  }

  lemma IdlesAppend(selected: seq<Candidate>, c: Candidate)
    ensures Sum(Idles(selected + [c])) == Sum(Idles(selected)) + c.idle
  {
    SumAppend(Idles(selected), [c.idle]);
    assert Idles(selected + [c]) == Idles(selected) + [c.idle];
  }

  // ----- Placing fragments

  /** How many fragments a miner takes: the most whose size stays strictly below its idle space. */
  function Capacity(idle: nat): nat {
    if idle == 0 then 0 else (idle - 1) / FRAGMENT_SIZE
  }

  lemma CapacityIsLargest(idle: nat, k: nat)
    ensures k + 1 <= Capacity(idle) <==> idle > Bytes(k + 1)
    ensures k <= Capacity(idle) && idle > 0 <==> idle > Bytes(k)
  {
  }

  type Tasks = seq<seq<Hash>>

  function Loads(tasks: Tasks): (l: seq<nat>)
    ensures |l| == |tasks|
  {
    seq(|tasks|, i requires 0 <= i < |tasks| => |tasks[i]|)
  }

  predicate Fits(tasks: Tasks, caps: seq<nat>) {
    |tasks| == |caps| && forall i :: 0 <= i < |caps| ==> |tasks[i]| <= caps[i]
  }

  function NextSlot(slot: nat, n: nat): nat {
    if slot + 1 == n then 0 else slot + 1
  }

  /** The first slot with room, in at most `tries` probes from `slot` on. */
  function FindSlot(tasks: Tasks, caps: seq<nat>, slot: nat, tries: nat): (r: Option<nat>)
    requires |tasks| == |caps| && slot < |caps|
    ensures r.Some? ==> r.value < |caps| && |tasks[r.value]| < caps[r.value]
    decreases tries
  {
    if tries == 0 then None
    else if |tasks[slot]| < caps[slot] then Some(slot)
    else FindSlot(tasks, caps, NextSlot(slot, |caps|), tries - 1)
  }

  /** One round of probes misses no slot with room. */
  lemma {:induction false} ProbesMissNothing(tasks: Tasks, caps: seq<nat>, slot: nat, tries: nat, j: nat)
    requires |tasks| == |caps| && slot < |caps| && tries <= |caps| && j < |caps|
    requires FindSlot(tasks, caps, slot, tries).None?
    requires slot <= j < slot + tries || j + |caps| < slot + tries
    ensures |tasks[j]| >= caps[j]
    decreases tries
  {
    if tries > 0 && j != slot {
      ProbesMissNothing(tasks, caps, NextSlot(slot, |caps|), tries - 1, j);
    }
  }

  function Push(tasks: Tasks, slot: nat, h: Hash): Tasks
    requires slot < |tasks|
  {
    tasks[slot := tasks[slot] + [h]]
  }

  /** The fragments of one segment, placed round-robin from `slot` on. */
  function PlaceSegment(tasks: Tasks, caps: seq<nat>, fragments: seq<Hash>, slot: nat): Option<Tasks>
    requires |tasks| == |caps| && slot < |caps|
    decreases |fragments|
  {
    if fragments == [] then Some(tasks)
    else
      var at := FindSlot(tasks, caps, slot, |caps|);
      if at.None? then None
      else PlaceSegment(Push(tasks, at.value, fragments[0]), caps, fragments[1..], NextSlot(at.value, |caps|))
  }

  /** All segments, each starting again at the first miner. */
  function PlaceAll(tasks: Tasks, caps: seq<nat>, segments: seq<Segment>): Option<Tasks>
    requires |tasks| == |caps| > 0
    decreases |segments|
  {
    if segments == [] then Some(tasks)
    else
      var placed := PlaceSegment(tasks, caps, segments[0].fragments, 0);
      if placed.None? then None
      else
        PlaceKeepsLength(tasks, caps, segments[0].fragments, 0);
        PlaceAll(placed.value, caps, segments[1..])
  }

  lemma {:induction false} PlaceKeepsLength(tasks: Tasks, caps: seq<nat>, fragments: seq<Hash>, slot: nat)
    requires |tasks| == |caps| && slot < |caps|
    ensures var r := PlaceSegment(tasks, caps, fragments, slot); r.Some? ==> |r.value| == |caps|
    decreases |fragments|
  {
    if fragments != [] {
      var at := FindSlot(tasks, caps, slot, |caps|);
      if at.Some? {
        PlaceKeepsLength(Push(tasks, at.value, fragments[0]), caps, fragments[1..], NextSlot(at.value, |caps|));
      }
    }
  }

  ghost function Bag(tasks: Tasks): multiset<Hash> {
    if tasks == [] then multiset{} else multiset(tasks[0]) + Bag(tasks[1..])
  }

  lemma {:induction false} BagPush(tasks: Tasks, slot: nat, h: Hash)
    requires slot < |tasks|
    ensures Bag(Push(tasks, slot, h)) == Bag(tasks) + multiset{h}
    ensures Sum(Loads(Push(tasks, slot, h))) == Sum(Loads(tasks)) + 1
  {
    var pushed := Push(tasks, slot, h);
    SumUpdate(Loads(tasks), slot, |tasks[slot]| + 1);
    assert Loads(pushed) == Loads(tasks)[slot := |tasks[slot]| + 1];
    if slot == 0 {
      assert pushed[1..] == tasks[1..];
    } else {
      BagPush(tasks[1..], slot - 1, h);
      assert pushed[1..] == Push(tasks[1..], slot - 1, h);
    }
  }

  lemma {:induction false} SumBelow(a: seq<nat>, b: seq<nat>)
    requires |a| == |b| && forall i :: 0 <= i < |a| ==> a[i] <= b[i]
    ensures Sum(a) <= Sum(b)
    ensures Sum(a) == Sum(b) <==> a == b
  {
    if a != [] {
      SumBelow(a[1..], b[1..]);
      assert a == [a[0]] + a[1..] && b == [b[0]] + b[1..];
    }
  }

  /** A slot is found, within one round of probes, exactly when some room is left. */
  lemma SlotFoundIffRoom(tasks: Tasks, caps: seq<nat>, slot: nat)
    requires Fits(tasks, caps) && slot < |caps|
    ensures FindSlot(tasks, caps, slot, |caps|).Some? <==> Sum(Loads(tasks)) < Sum(caps)
  {
    SumBelow(Loads(tasks), caps);
    if FindSlot(tasks, caps, slot, |caps|).None? {
      forall j | 0 <= j < |caps| ensures Loads(tasks)[j] == caps[j] {
        ProbesMissNothing(tasks, caps, slot, |caps|, j);
      }
      assert Loads(tasks) == caps;
    }
  }

  lemma {:induction false} SegmentPlaced(tasks: Tasks, caps: seq<nat>, fragments: seq<Hash>, slot: nat)
    requires Fits(tasks, caps) && slot < |caps|
    ensures var r := PlaceSegment(tasks, caps, fragments, slot);
            && (r.Some? <==> Sum(Loads(tasks)) + |fragments| <= Sum(caps))
            && (r.Some? ==> && Fits(r.value, caps)
                            && Sum(Loads(r.value)) == Sum(Loads(tasks)) + |fragments|
                            && Bag(r.value) == Bag(tasks) + multiset(fragments))
    decreases |fragments|
  {
    SumBelow(Loads(tasks), caps);
    if fragments != [] {
      SlotFoundIffRoom(tasks, caps, slot);
      var at := FindSlot(tasks, caps, slot, |caps|);
      if at.Some? {
        BagPush(tasks, at.value, fragments[0]);
        SegmentPlaced(Push(tasks, at.value, fragments[0]), caps, fragments[1..], NextSlot(at.value, |caps|));
        assert fragments == [fragments[0]] + fragments[1..];
      }
    }
  }

  lemma {:induction false} AllPlaced(tasks: Tasks, caps: seq<nat>, segments: seq<Segment>)
    requires Fits(tasks, caps) && |caps| > 0
    ensures var r := PlaceAll(tasks, caps, segments);
            && (r.Some? <==> Sum(Loads(tasks)) + |AllFragments(segments)| <= Sum(caps))
            && (r.Some? ==> Fits(r.value, caps) && Bag(r.value) == Bag(tasks) + multiset(AllFragments(segments)))
    decreases |segments|
  {
    SumBelow(Loads(tasks), caps);
    if segments != [] {
      SegmentPlaced(tasks, caps, segments[0].fragments, 0);
      var placed := PlaceSegment(tasks, caps, segments[0].fragments, 0);
      if placed.Some? {
        AllPlaced(placed.value, caps, segments[1..]);
      }
    }
  }

  function Empty(n: nat): (t: Tasks)
    ensures |t| == n && forall i :: 0 <= i < n ==> t[i] == []
  {
    seq(n, _ => [])
  }

  lemma {:induction false} EmptyHoldsNothing(n: nat)
    ensures Sum(Loads(Empty(n))) == 0 && Bag(Empty(n)) == multiset{}
  {
    if n > 0 {
      EmptyHoldsNothing(n - 1);
      assert Empty(n)[1..] == Empty(n - 1);
      assert Loads(Empty(n))[1..] == Loads(Empty(n - 1));
    }
  }

  /**
   * Allocation succeeds exactly when the capacities cover the fragments; then every fragment is placed once and no
   * miner is loaded beyond its capacity.
   */
  lemma AllocationIsExact(caps: seq<nat>, segments: seq<Segment>)
    requires |caps| > 0
    ensures var r := PlaceAll(Empty(|caps|), caps, segments);
            && (r.Some? <==> |AllFragments(segments)| <= Sum(caps))
            && (r.Some? ==> Fits(r.value, caps) && Bag(r.value) == multiset(AllFragments(segments)))
  {
    EmptyHoldsNothing(|caps|);
    AllPlaced(Empty(|caps|), caps, segments);
  }

  // ----- Three miners

  /** Fragment `j` of every segment. */
  function Column(segments: seq<Segment>, j: nat): seq<Hash>
    requires WellFormed(segments) && j < MINER_COUNT
  {
    if segments == [] then [] else [segments[0].fragments[j]] + Column(segments[1..], j)
  }

  function Grown(tasks: Tasks, segments: seq<Segment>): (t: Tasks)
    requires WellFormed(segments) && |tasks| == MINER_COUNT
    ensures |t| == |tasks|
  {
    seq(|tasks|, j requires 0 <= j < |tasks| => tasks[j] + Column(segments, j))
  }

  function PushRow(tasks: Tasks, f: seq<Hash>): (t: Tasks)
    requires |tasks| == |f|
    ensures |t| == |tasks|
  {
    seq(|tasks|, j requires 0 <= j < |tasks| => tasks[j] + [f[j]])
  }

  lemma SegmentInColumns(tasks: Tasks, caps: seq<nat>, f: seq<Hash>)
    requires |tasks| == |caps| == |f| == MINER_COUNT
    requires forall i :: 0 <= i < |caps| ==> |tasks[i]| < caps[i]
    ensures PlaceSegment(tasks, caps, f, 0) == Some(PushRow(tasks, f))
  {
    var t1 := Push(tasks, 0, f[0]);
    var t2 := Push(t1, 1, f[1]);
    var t3 := Push(t2, 2, f[2]);
    assert f[1..][1..][1..] == [];
    assert PlaceSegment(t3, caps, f[1..][1..][1..], 0) == Some(t3);
    assert PlaceSegment(t2, caps, f[1..][1..], 2) == Some(t3);
    assert PlaceSegment(t1, caps, f[1..], 1) == Some(t3);
    assert t3 == PushRow(tasks, f);
  }

  lemma GrownByRow(tasks: Tasks, segments: seq<Segment>)
    requires WellFormed(segments) && |tasks| == MINER_COUNT && segments != []
    ensures Grown(PushRow(tasks, segments[0].fragments), segments[1..]) == Grown(tasks, segments)
  {
    var a := Grown(PushRow(tasks, segments[0].fragments), segments[1..]);
    forall j | 0 <= j < |tasks| ensures a[j] == Grown(tasks, segments)[j] {
      assert tasks[j] + [segments[0].fragments[j]] + Column(segments[1..], j)
          == tasks[j] + ([segments[0].fragments[j]] + Column(segments[1..], j));
    }
  }

  lemma {:induction false} PlacedInColumns(tasks: Tasks, caps: seq<nat>, segments: seq<Segment>)
    requires |tasks| == |caps| == MINER_COUNT && WellFormed(segments)
    requires forall i :: 0 <= i < |caps| ==> |tasks[i]| + |segments| <= caps[i]
    ensures PlaceAll(tasks, caps, segments) == Some(Grown(tasks, segments))
    decreases |segments|
  {
    if segments == [] {
      forall j | 0 <= j < |tasks| ensures tasks[j] == Grown(tasks, segments)[j] {
        assert tasks[j] + [] == tasks[j];
      }
      assert tasks == Grown(tasks, segments);
    } else {
      var f := segments[0].fragments;
      SegmentInColumns(tasks, caps, f);
      PlacedInColumns(PushRow(tasks, f), caps, segments[1..]);
      GrownByRow(tasks, segments);
    }
  }

  /** With three miners no probe is wasted: miner `j` receives fragment `j` of every segment. */
  lemma ThreeMinersTakeColumns(caps: seq<nat>, segments: seq<Segment>)
    requires |caps| == MINER_COUNT && WellFormed(segments)
    requires forall i :: 0 <= i < |caps| ==> |segments| <= caps[i]
    ensures PlaceAll(Empty(|caps|), caps, segments).Some?
    ensures forall j :: 0 <= j < |caps| ==>
              && |PlaceAll(Empty(|caps|), caps, segments).value| == |caps|
              && PlaceAll(Empty(|caps|), caps, segments).value[j] == Column(segments, j)
  {
    PlacedInColumns(Empty(|caps|), caps, segments);
    forall j | 0 <= j < |caps| ensures Grown(Empty(|caps|), segments)[j] == Column(segments, j) {
    }
  }

  // ----- The allocator

  lemma ModStep(index: nat, n: nat)
    requires n > 0
    ensures (index + 1) % n == NextSlot(index % n, n)
  {
    var q, r := index / n, index % n;
    assert index == n * q + r;
    if r + 1 == n {
      assert index + 1 == n * (q + 1) by { assert n * (q + 1) == n * q + n; }
      DivUnique(index + 1, q + 1, 0, n);
    } else {
      DivUnique(index + 1, q, r + 1, n);
    }
  }

  /**
   * Probes from `index` on until a miner has room; gives up only when the index overflows.
   * Returns the miner's slot and the index after it.
   */
  method ProbeForRoom(tasks: Tasks, idle: seq<nat>, index: nat) returns (r: Result<(nat, nat)>)
    requires |tasks| == |idle| > 0
    requires index + |idle| <= USIZE_MAX
    ensures var at := FindSlot(tasks, Capacities(idle), index % |idle|, |idle|);
            && (at.None? ==> r == Err(PanicOverflow))
            && (at.Some? ==> && r.Ok? && r.value.0 == at.value
                             && index < r.value.1 <= index + |idle|
                             && r.value.1 % |idle| == NextSlot(at.value, |idle|))
  {
    ghost var caps := Capacities(idle);
    var i, n := index, |idle|;
    while true
      invariant index <= i <= USIZE_MAX
      invariant i < index + n ==>
                  FindSlot(tasks, caps, i % n, index + n - i) == FindSlot(tasks, caps, index % n, n)
      invariant i >= index + n ==> FindSlot(tasks, caps, index % n, n).None?
      decreases USIZE_MAX - i
    {
      var slot := i % n;
      CapacityIsLargest(idle[slot], |tasks[slot]|);
      if i >= index + n {
        ProbesMissNothing(tasks, caps, index % n, n, slot);
      }
      ModStep(i, n);
      if idle[slot] > Bytes(|tasks[slot]| + 1) {
        return Ok((slot, i + 1));
      }
      if i == USIZE_MAX {
        return Err(PanicOverflow);
      }
      i := i + 1;
    }
  }

  function Capacities(idle: seq<nat>): (c: seq<nat>)
    ensures |c| == |idle|
  {
    seq(|idle|, i requires 0 <= i < |idle| => Capacity(idle[i]))
  }

  method AssignSegment(tasks: Tasks, fragments: seq<Hash>, idle: seq<nat>) returns (r: Result<Tasks>)
    requires |tasks| == |idle| && 0 < |idle| <= MINER_COUNT && |fragments| <= MINER_COUNT
    ensures var placed := PlaceSegment(tasks, Capacities(idle), fragments, 0);
            r == if placed.Some? then Ok(placed.value) else Err(PanicOverflow)
  {
    ghost var caps := Capacities(idle);
    assert MINER_COUNT == 3;
    var index, filled := 0, tasks;
    for f := 0 to |fragments|
      invariant |filled| == |idle| && index <= 3 * f
      invariant PlaceSegment(tasks, caps, fragments, 0) == PlaceSegment(filled, caps, fragments[f..], index % |idle|)
    {
      assert fragments[f..][1..] == fragments[f + 1..];
      var at := ProbeForRoom(filled, idle, index);
      if at.Err? {
        return Err(PanicOverflow);
      }
      var (slot, next) := at.value;
      filled := filled[slot := filled[slot] + [fragments[f]]];
      index := next;
    }
    r := Ok(filled);
  }

  /** Gives every fragment to a selected miner. */
  method AssignFragments(segments: seq<Segment>, idle: seq<nat>) returns (r: Result<Tasks>)
    requires WellFormed(segments) && 0 < |idle| <= MINER_COUNT
    ensures var placed := PlaceAll(Empty(|idle|), Capacities(idle), segments);
            r == if placed.Some? then Ok(placed.value) else Err(PanicOverflow)
  {
    var tasks := Empty(|idle|);
    ghost var caps := Capacities(idle);
    for s := 0 to |segments|
      invariant |tasks| == |idle|
      invariant PlaceAll(Empty(|idle|), caps, segments) == PlaceAll(tasks, caps, segments[s..])
    {
      assert segments[s..][1..] == segments[s + 1..];
      PlaceKeepsLength(tasks, caps, segments[s].fragments, 0);
      var placed := AssignSegment(tasks, segments[s].fragments, idle);
      if placed.Err? {
        return placed;
      }
      tasks := placed.value;
    }
    r := Ok(tasks);
  }
}

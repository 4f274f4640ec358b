/** Recovering the placement of a stored file from what each miner was assigned. */
module Placement {
  import opened Base
  import opened Allocation

  datatype Task = Task(miner: Account, fragments: seq<Hash>)

  datatype FragmentInfo = FragmentInfo(hash: Hash, avail: bool, miner: Account)

  datatype SegmentInfo = SegmentInfo(hash: Hash, fragments: seq<FragmentInfo>)

  // ----- What is recorded

  /** Task lists seen as bags: sorting and searching them never depends on their order. */
  datatype Holder = Holder(miner: Account, bag: multiset<Hash>)

  function Holders(tasks: seq<Task>): (h: seq<Holder>)
    ensures |h| == |tasks|
    ensures forall j :: 0 <= j < |tasks| ==> h[j] == Holder(tasks[j].miner, multiset(tasks[j].fragments))
  {
    seq(|tasks|, j requires 0 <= j < |tasks| => Holder(tasks[j].miner, multiset(tasks[j].fragments)))
  }

  /** With the optimal number of miners a miner may appear once in a segment. */
  predicate Holds(h: Holder, f: Hash, marked: seq<Account>, exclusive: bool) {
    f in h.bag && !(exclusive && h.miner in marked)
  }

  /** The first holder of a fragment that may still be used. */
  function FindHolder(hs: seq<Holder>, f: Hash, marked: seq<Account>, exclusive: bool): (r: Option<nat>)
    ensures r.Some? ==> r.value < |hs| && Holds(hs[r.value], f, marked, exclusive)
    ensures r.Some? ==> forall j :: 0 <= j < r.value ==> !Holds(hs[j], f, marked, exclusive)
    ensures r.None? ==> forall j :: 0 <= j < |hs| ==> !Holds(hs[j], f, marked, exclusive)
  {
    if hs == [] then None
    else if Holds(hs[0], f, marked, exclusive) then Some(0)
    else
      var rest := FindHolder(hs[1..], f, marked, exclusive);
      if rest.None? then None else Some(rest.value + 1)
  }

  function Take(hs: seq<Holder>, j: nat, f: Hash): seq<Holder>
    requires j < |hs|
  {
    hs[j := hs[j].(bag := hs[j].bag - multiset{f})]
  }

  datatype Recorded = Recorded(infos: seq<FragmentInfo>, holders: seq<Holder>)

  /** The fragments of a segment in order, each on its first usable holder; one that nobody holds is dropped. */
  function Record(fragments: seq<Hash>, hs: seq<Holder>, marked: seq<Account>, exclusive: bool): Recorded
    decreases |fragments|
  {
    if fragments == [] then Recorded([], hs)
    else
      var f, at := fragments[0], FindHolder(hs, fragments[0], marked, exclusive);
      if at.None? then Record(fragments[1..], hs, marked, exclusive)
      else
        var miner := hs[at.value].miner;
        var rest := Record(fragments[1..], Take(hs, at.value, f), marked + [miner], exclusive);
        rest.(infos := [FragmentInfo(f, true, miner)] + rest.infos)
  }

  function Shared(hash: Hash, share: seq<SegmentInfo>): Option<SegmentInfo> {
    if share == [] then None
    else if share[0].hash == hash then Some(share[0])
    else Shared(hash, share[1..])
  }

  /** A shared segment is the first of that hash, and there is one exactly when the hash occurs. */
  lemma {:induction false} SharedIsFirst(hash: Hash, share: seq<SegmentInfo>)
    ensures Shared(hash, share).None? ==> forall i :: 0 <= i < |share| ==> share[i].hash != hash
    ensures Shared(hash, share).Some? ==>
              exists i :: && 0 <= i < |share| && share[i] == Shared(hash, share).value && share[i].hash == hash
                          && forall j :: 0 <= j < i ==> share[j].hash != hash
  {
    if share != [] && share[0].hash != hash {
      SharedIsFirst(hash, share[1..]);
      if Shared(hash, share).Some? {
        var rest := share[1..];
        var i :| && 0 <= i < |rest| && rest[i] == Shared(hash, rest).value && rest[i].hash == hash
                 && forall j :: 0 <= j < i ==> rest[j].hash != hash;
        assert share[i + 1] == rest[i];
        assert forall j :: 0 < j < i + 1 ==> share[j] == rest[j - 1];
      }
    }
  }

  function RecordFile(deal: seq<Segment>, hs: seq<Holder>, share: seq<SegmentInfo>, exclusive: bool): seq<SegmentInfo>
    decreases |deal|
  {
    if deal == [] then []
    else if Shared(deal[0].hash, share).Some? then
      [SegmentInfo(deal[0].hash, Shared(deal[0].hash, share).value.fragments)]
      + RecordFile(deal[1..], hs, share, exclusive)
    else
      var r := Record(deal[0].fragments, hs, [], exclusive);
      [SegmentInfo(deal[0].hash, r.infos)] + RecordFile(deal[1..], r.holders, share, exclusive)
  }

  // ----- Nothing is lost: any number of miners, no marking

  ghost function Union(hs: seq<Holder>): multiset<Hash> {
    if hs == [] then multiset{} else hs[0].bag + Union(hs[1..])
  }

  lemma {:induction false} UnionTake(hs: seq<Holder>, j: nat, f: Hash)
    requires j < |hs| && f in hs[j].bag
    ensures Union(Take(hs, j, f)) == Union(hs) - multiset{f}
    ensures f in Union(hs)
  {
    if j == 0 {
      assert Take(hs, j, f)[1..] == hs[1..];
      MinusOne(hs[0].bag, Union(hs[1..]), f);
    } else {
      UnionTake(hs[1..], j - 1, f);
      assert Take(hs, j, f)[1..] == Take(hs[1..], j - 1, f);
      MinusOne(Union(hs[1..]), hs[0].bag, f);
      assert hs[0].bag + Union(hs[1..]) == Union(hs[1..]) + hs[0].bag;
    }
  }

  lemma MinusOne(a: multiset<Hash>, b: multiset<Hash>, f: Hash)
    requires f in a
    ensures a - multiset{f} + b == a + b - multiset{f} == b + (a - multiset{f})
  {
  }

  lemma {:induction false} HeldBySomeone(hs: seq<Holder>, f: Hash)
    requires f in Union(hs)
    ensures exists j :: 0 <= j < |hs| && f in hs[j].bag
  {
    if f !in hs[0].bag {
      HeldBySomeone(hs[1..], f);
      var j :| 0 <= j < |hs[1..]| && f in hs[1..][j].bag;
      assert f in hs[j + 1].bag;
    }
  }

  function Hashes(infos: seq<FragmentInfo>): (h: seq<Hash>)
    ensures |h| == |infos|
  {
    if infos == [] then [] else [infos[0].hash] + Hashes(infos[1..])
  }

  /** The fragments recorded on one miner. */
  ghost function On(infos: seq<FragmentInfo>, miner: Account): multiset<Hash> {
    if infos == [] then multiset{}
    else if infos[0].miner == miner then multiset{infos[0].hash} + On(infos[1..], miner)
    else On(infos[1..], miner)
  }

  ghost predicate DistinctMiners(hs: seq<Holder>) {
    forall i, j :: 0 <= i < j < |hs| ==> hs[i].miner != hs[j].miner
  }

  ghost predicate SameMiners(a: seq<Holder>, b: seq<Holder>) {
    |a| == |b| && forall j :: 0 <= j < |a| ==> a[j].miner == b[j].miner
  }

  lemma OnFirst(info: FragmentInfo, infos: seq<FragmentInfo>, miner: Account)
    ensures On([info] + infos, miner)
         == if info.miner == miner then multiset{info.hash} + On(infos, miner) else On(infos, miner)
  {
    assert ([info] + infos)[1..] == infos;
  }

  lemma PutBack(bag: multiset<Hash>, f: Hash, kept: multiset<Hash>, moved: multiset<Hash>)
    requires f in bag && bag - multiset{f} == kept + moved
    ensures bag == kept + (multiset{f} + moved)
  {
    assert bag == bag - multiset{f} + multiset{f};
  }

  /** What a miner's bag loses is what is recorded on that miner. */
  lemma {:induction false} RecordMovesBags(fragments: seq<Hash>, hs: seq<Holder>, marked: seq<Account>,
                                           exclusive: bool, j: nat)
    requires DistinctMiners(hs) && j < |hs|
    ensures var r := Record(fragments, hs, marked, exclusive);
            && SameMiners(r.holders, hs)
            && hs[j].bag == r.holders[j].bag + On(r.infos, hs[j].miner)
    decreases |fragments|
  {
    if fragments != [] {
      var f, at := fragments[0], FindHolder(hs, fragments[0], marked, exclusive);
      if at.None? {
        RecordMovesBags(fragments[1..], hs, marked, exclusive, j);
      } else {
        var miner := hs[at.value].miner;
        var rest := Record(fragments[1..], Take(hs, at.value, f), marked + [miner], exclusive);
        RecordMovesBags(fragments[1..], Take(hs, at.value, f), marked + [miner], exclusive, j);
        OnFirst(FragmentInfo(f, true, miner), rest.infos, hs[j].miner);
        if j == at.value {
          PutBack(hs[j].bag, f, rest.holders[j].bag, On(rest.infos, miner));
        }
      }
    }
  }

  /** Without marking, bags that cover the fragments record them all, in order. */
  lemma {:induction false} RecordsAll(fragments: seq<Hash>, hs: seq<Holder>, marked: seq<Account>)
    requires multiset(fragments) <= Union(hs)
    ensures var r := Record(fragments, hs, marked, false);
            && Hashes(r.infos) == fragments
            && Union(r.holders) == Union(hs) - multiset(fragments)
    decreases |fragments|
  {
    if fragments != [] {
      var f := fragments[0];
      assert fragments == [f] + fragments[1..];
      assert f in multiset(fragments);
      HeldBySomeone(hs, f);
      var at := FindHolder(hs, f, marked, false).value;
      UnionTake(hs, at, f);
      var rest := Record(fragments[1..], Take(hs, at, f), marked + [hs[at].miner], false);
      RecordsAll(fragments[1..], Take(hs, at, f), marked + [hs[at].miner]);
      var r := Record(fragments, hs, marked, false);
      assert r.infos[1..] == rest.infos;
    }
  }

  function AllInfos(file: seq<SegmentInfo>): seq<FragmentInfo> {
    if file == [] then [] else file[0].fragments + AllInfos(file[1..])
  }

  lemma {:induction false} OnAppend(a: seq<FragmentInfo>, b: seq<FragmentInfo>, miner: Account)
    ensures On(a + b, miner) == On(a, miner) + On(b, miner)
  {
    if a == [] {
      assert a + b == b;
    } else {
      OnAppend(a[1..], b, miner);
      assert a + b == [a[0]] + (a[1..] + b) && a == [a[0]] + a[1..];
      OnFirst(a[0], a[1..] + b, miner);
      OnFirst(a[0], a[1..], miner);
    }
  }

  /** The recorded file lists exactly the fragments of the deal, segment by segment and in order. */
  ghost predicate Complete(file: seq<SegmentInfo>, deal: seq<Segment>) {
    && |file| == |deal|
    && forall s :: 0 <= s < |deal| ==> file[s].hash == deal[s].hash && Hashes(file[s].fragments) == deal[s].fragments
  }

  lemma FirstComplete(first: SegmentInfo, rest: seq<SegmentInfo>, deal: seq<Segment>)
    requires deal != [] && first.hash == deal[0].hash && Hashes(first.fragments) == deal[0].fragments
    requires Complete(rest, deal[1..])
    ensures Complete([first] + rest, deal)
  {
    forall s | 0 <= s < |deal|
      ensures ([first] + rest)[s].hash == deal[s].hash && Hashes(([first] + rest)[s].fragments) == deal[s].fragments
    {
      if s > 0 {
        assert deal[s] == deal[1..][s - 1];
      }
    }
  }

  /** Any number of miners whose bags hold exactly the deal: the file is complete and every bag is used up. */
  lemma {:induction false} FileIsComplete(deal: seq<Segment>, hs: seq<Holder>, j: nat)
    requires DistinctMiners(hs) && j < |hs| && Union(hs) == multiset(AllFragments(deal))
    ensures var file := RecordFile(deal, hs, [], false);
            && Complete(file, deal)
            && On(AllInfos(file), hs[j].miner) == hs[j].bag
    decreases |deal|
  {
    if deal == [] {
      NothingHeld(hs, j);
    } else {
      var r := Record(deal[0].fragments, hs, [], false);
      SplitBag(deal[0].fragments, AllFragments(deal[1..]));
      RecordsAll(deal[0].fragments, hs, []);
      RecordMovesBags(deal[0].fragments, hs, [], false, j);
      FileIsComplete(deal[1..], r.holders, j);
      var rest := RecordFile(deal[1..], r.holders, [], false);
      FirstComplete(SegmentInfo(deal[0].hash, r.infos), rest, deal);
      AllInfosFirst(SegmentInfo(deal[0].hash, r.infos), rest, hs[j].miner);
    }
  }

  lemma SplitBag(a: seq<Hash>, b: seq<Hash>)
    ensures multiset(a) <= multiset(a + b) && multiset(a + b) - multiset(a) == multiset(b)
  {
  }

  lemma AllInfosFirst(first: SegmentInfo, rest: seq<SegmentInfo>, miner: Account)
    ensures On(AllInfos([first] + rest), miner) == On(first.fragments, miner) + On(AllInfos(rest), miner)
  {
    assert ([first] + rest)[1..] == rest;
    OnAppend(first.fragments, AllInfos(rest), miner);
  }

  lemma {:induction false} NothingHeld(hs: seq<Holder>, j: nat)
    requires j < |hs| && Union(hs) == multiset{}
    ensures hs[j].bag == multiset{}
  {
    assert hs[0].bag <= Union(hs) && Union(hs[1..]) <= Union(hs);
    if j > 0 {
      NothingHeld(hs[1..], j - 1);
    }
  }

  // ----- Three miners: each takes its column, even when hashes repeat

  ghost predicate HoldColumns(hs: seq<Holder>, deal: seq<Segment>)
    requires WellFormed(deal)
  {
    && |hs| == MINER_COUNT
    && DistinctMiners(hs)
    && forall j :: 0 <= j < |hs| ==> hs[j].bag == multiset(Column(deal, j))
  }

  function RowInfos(f: seq<Hash>, miners: seq<Account>): (infos: seq<FragmentInfo>)
    requires |f| == |miners|
    ensures |infos| == |f|
  {
    seq(|f|, j requires 0 <= j < |f| => FragmentInfo(f[j], true, miners[j]))
  }

  function TakeRow(hs: seq<Holder>, f: seq<Hash>): (t: seq<Holder>)
    requires |hs| == |f|
    ensures |t| == |hs|
  {
    seq(|hs|, j requires 0 <= j < |hs| => hs[j].(bag := hs[j].bag - multiset{f[j]}))
  }

  lemma FirstUnmarked(hs: seq<Holder>, f: Hash, marked: seq<Account>, k: nat)
    requires DistinctMiners(hs) && k < |hs| && f in hs[k].bag
    requires |marked| == k && forall j :: 0 <= j < k ==> marked[j] == hs[j].miner
    ensures FindHolder(hs, f, marked, true) == Some(k)
  {
    assert forall j :: 0 <= j < k ==> hs[j].miner in marked;
    assert hs[k].miner !in marked;
    assert Holds(hs[k], f, marked, true);
  }

  /** The holders once the first `k` have given up their fragment of the row. */
  function TakeFirst(hs: seq<Holder>, f: seq<Hash>, k: nat): (t: seq<Holder>)
    requires k <= |hs| == |f|
    ensures |t| == |hs|
  {
    seq(|hs|, j requires 0 <= j < |hs| => if j < k then hs[j].(bag := hs[j].bag - multiset{f[j]}) else hs[j])
  }

  function Miners(hs: seq<Holder>): (m: seq<Account>)
    ensures |m| == |hs|
  {
    seq(|hs|, j requires 0 <= j < |hs| => hs[j].miner)
  }

  lemma RowStep(f: seq<Hash>, hs: seq<Holder>, k: nat)
    requires k < |f| == |hs| && DistinctMiners(hs)
    requires forall j :: 0 <= j < |hs| ==> f[j] in hs[j].bag
    ensures Take(TakeFirst(hs, f, k), k, f[k]) == TakeFirst(hs, f, k + 1)
    ensures Miners(hs)[..k] + [hs[k].miner] == Miners(hs)[..k + 1]
    ensures FindHolder(TakeFirst(hs, f, k), f[k], Miners(hs)[..k], true) == Some(k)
  {
    FirstUnmarked(TakeFirst(hs, f, k), f[k], Miners(hs)[..k], k);
    TakeNext(hs, f, k);
  }

  lemma TakeNext(hs: seq<Holder>, f: seq<Hash>, k: nat)
    requires k < |f| == |hs|
    ensures Take(TakeFirst(hs, f, k), k, f[k]) == TakeFirst(hs, f, k + 1)
  {
    var taken, next := Take(TakeFirst(hs, f, k), k, f[k]), TakeFirst(hs, f, k + 1);
    forall j | 0 <= j < |hs| ensures taken[j] == next[j] {
    }
  }

  lemma RowInfosStep(f: seq<Hash>, miners: seq<Account>, k: nat)
    requires k < |f| == |miners|
    ensures f[k..][1..] == f[k + 1..]
    ensures RowInfos(f, miners)[k..] == [FragmentInfo(f[k], true, miners[k])] + RowInfos(f, miners)[k + 1..]
  {
  }

  lemma {:induction false} RecordRowFrom(f: seq<Hash>, hs: seq<Holder>, k: nat)
    requires k <= |f| == |hs| && DistinctMiners(hs)
    requires forall j :: 0 <= j < |hs| ==> f[j] in hs[j].bag
    ensures Record(f[k..], TakeFirst(hs, f, k), Miners(hs)[..k], true)
         == Recorded(RowInfos(f, Miners(hs))[k..], TakeFirst(hs, f, |f|))
    decreases |f| - k
  {
    if k < |f| {
      RowStep(f, hs, k);
      RowInfosStep(f, Miners(hs), k);
      RecordRowFrom(f, hs, k + 1);
    }
  }

  lemma RecordRow(f: seq<Hash>, hs: seq<Holder>)
    requires |f| == |hs| && DistinctMiners(hs)
    requires forall j :: 0 <= j < |hs| ==> f[j] in hs[j].bag
    ensures Record(f, hs, [], true) == Recorded(RowInfos(f, Miners(hs)), TakeRow(hs, f))
  {
    RecordRowFrom(f, hs, 0);
    assert f[0..] == f && TakeFirst(hs, f, 0) == hs && Miners(hs)[..0] == [];
    assert RowInfos(f, Miners(hs))[0..] == RowInfos(f, Miners(hs));
    assert TakeFirst(hs, f, |f|) == TakeRow(hs, f);
  }

  lemma ColumnStep(deal: seq<Segment>, j: nat)
    requires WellFormed(deal) && deal != [] && j < MINER_COUNT
    ensures var f := deal[0].fragments[j];
            f in Column(deal, j) && multiset(Column(deal, j)) - multiset{f} == multiset(Column(deal[1..], j))
  {
    assert Column(deal, j) == [deal[0].fragments[j]] + Column(deal[1..], j);
  }

  lemma ColumnTaken(deal: seq<Segment>, hs: seq<Holder>, j: nat)
    requires WellFormed(deal) && HoldColumns(hs, deal) && deal != [] && j < |hs|
    ensures deal[0].fragments[j] in hs[j].bag
    ensures TakeRow(hs, deal[0].fragments)[j] == Holder(hs[j].miner, multiset(Column(deal[1..], j)))
  {
    ColumnStep(deal, j);
    assert hs[j].bag == multiset(Column(deal, j));
  }

  lemma ColumnsStep(deal: seq<Segment>, hs: seq<Holder>)
    requires WellFormed(deal) && HoldColumns(hs, deal) && deal != []
    ensures forall j :: 0 <= j < |hs| ==> deal[0].fragments[j] in hs[j].bag
    ensures HoldColumns(TakeRow(hs, deal[0].fragments), deal[1..])
    ensures Miners(TakeRow(hs, deal[0].fragments)) == Miners(hs)
  {
    var taken := TakeRow(hs, deal[0].fragments);
    forall j | 0 <= j < |hs|
      ensures deal[0].fragments[j] in hs[j].bag
      ensures taken[j].miner == hs[j].miner && taken[j].bag == multiset(Column(deal[1..], j))
    {
      ColumnTaken(deal, hs, j);
    }
  }

  /** The file in which fragment `j` of every segment lies on miner `j`. */
  function ColumnFile(deal: seq<Segment>, miners: seq<Account>): seq<SegmentInfo>
    requires WellFormed(deal) && |miners| == MINER_COUNT
  {
    if deal == [] then []
    else [SegmentInfo(deal[0].hash, RowInfos(deal[0].fragments, miners))] + ColumnFile(deal[1..], miners)
  }

  /**
   * Three miners holding the columns of the deal: fragment `j` of every segment is recorded on miner `j`,
   * whatever hashes repeat.
   */
  lemma {:induction false} ColumnsAreRecovered(deal: seq<Segment>, hs: seq<Holder>)
    requires WellFormed(deal) && HoldColumns(hs, deal)
    ensures RecordFile(deal, hs, [], true) == ColumnFile(deal, Miners(hs))
    decreases |deal|
  {
    if deal != [] {
      ColumnsStep(deal, hs);
      RecordRow(deal[0].fragments, hs);
      ColumnsAreRecovered(deal[1..], TakeRow(hs, deal[0].fragments));
    }
  }

  lemma {:induction false} ColumnFileAt(deal: seq<Segment>, miners: seq<Account>, s: nat, j: nat)
    requires WellFormed(deal) && |miners| == MINER_COUNT && s < |deal| && j < MINER_COUNT
    ensures var file := ColumnFile(deal, miners);
            && |file| == |deal|
            && file[s].hash == deal[s].hash
            && |file[s].fragments| == MINER_COUNT
            && file[s].fragments[j] == FragmentInfo(deal[s].fragments[j], true, miners[j])
    decreases |deal|
  {
    if s > 0 {
      ColumnFileAt(deal[1..], miners, s - 1, j);
    } else if |deal| > 1 {
      ColumnFileAt(deal[1..], miners, 0, j);
    }
  }

  lemma {:induction false} ColumnFileIsComplete(deal: seq<Segment>, miners: seq<Account>, j: nat)
    requires WellFormed(deal) && |miners| == MINER_COUNT && j < MINER_COUNT
    requires forall i, k :: 0 <= i < k < |miners| ==> miners[i] != miners[k]
    ensures Complete(ColumnFile(deal, miners), deal)
    ensures On(AllInfos(ColumnFile(deal, miners)), miners[j]) == multiset(Column(deal, j))
    decreases |deal|
  {
    if deal != [] {
      ColumnFileIsComplete(deal[1..], miners, j);
      var row := SegmentInfo(deal[0].hash, RowInfos(deal[0].fragments, miners));
      var rest := ColumnFile(deal[1..], miners);
      RowOn(deal[0].fragments, miners, j, |miners|);
      RowHashes(deal[0].fragments, miners, |miners|);
      assert row.fragments[..|miners|] == row.fragments;
      assert deal[0].fragments[..|miners|] == deal[0].fragments;
      FirstComplete(row, rest, deal);
      AllInfosFirst(row, rest, miners[j]);
      assert Column(deal, j) == [deal[0].fragments[j]] + Column(deal[1..], j);
    }
  }

  /** A row puts one fragment on each miner. */
  lemma {:induction false} RowOn(f: seq<Hash>, miners: seq<Account>, j: nat, n: nat)
    requires n <= |f| == |miners| && j < |f|
    requires forall i, k :: 0 <= i < k < |miners| ==> miners[i] != miners[k]
    ensures On(RowInfos(f, miners)[..n], miners[j]) == if j < n then multiset{f[j]} else multiset{}
  {
    var row := RowInfos(f, miners);
    if n > 0 {
      RowOn(f, miners, j, n - 1);
      assert row[..n] == row[..n - 1] + [row[n - 1]];
      OnAppend(row[..n - 1], [row[n - 1]], miners[j]);
      OnFirst(row[n - 1], [], miners[j]);
      assert [row[n - 1]] + [] == [row[n - 1]];
    }
  }

  lemma {:induction false} RowHashes(f: seq<Hash>, miners: seq<Account>, n: nat)
    requires n <= |f| == |miners|
    ensures Hashes(RowInfos(f, miners)[..n]) == f[..n]
  {
    var row := RowInfos(f, miners);
    if n > 0 {
      RowHashes(f, miners, n - 1);
      assert row[..n] == row[..n - 1] + [row[n - 1]];
      HashesAppend(row[..n - 1], row[n - 1]);
      assert f[..n] == f[..n - 1] + [f[n - 1]];
    }
  }

  lemma {:induction false} HashesAppend(a: seq<FragmentInfo>, info: FragmentInfo)
    ensures Hashes(a + [info]) == Hashes(a) + [info.hash]
  {
    if a == [] {
      assert a + [info] == [info];
    } else {
      HashesAppend(a[1..], info);
      assert (a + [info])[1..] == a[1..] + [info];
    }
  }

  // ----- From allocation to record

  function TaskList(candidates: seq<Candidate>, placed: Tasks): (tasks: seq<Task>)
    requires |candidates| == |placed|
    ensures |tasks| == |placed|
  {
    seq(|placed|, j requires 0 <= j < |placed| => Task(candidates[j].miner, placed[j]))
  }

  lemma {:induction false} UnionOfTasks(tasks: seq<Task>, placed: Tasks)
    requires |tasks| == |placed| && forall j :: 0 <= j < |tasks| ==> tasks[j].fragments == placed[j]
    ensures Union(Holders(tasks)) == Bag(placed)
  {
    if tasks != [] {
      UnionOfTasks(tasks[1..], placed[1..]);
      assert Holders(tasks)[1..] == Holders(tasks[1..]);
    }
  }

  /** What the deal's completion records for a task list. */
  function FileOf(deal: seq<Segment>, tasks: seq<Task>, share: seq<SegmentInfo>): seq<SegmentInfo> {
    RecordFile(deal, Holders(tasks), share, |tasks| == MINER_COUNT)
  }

  lemma FewMinersRecovered(deal: seq<Segment>, tasks: seq<Task>, placed: Tasks, j: nat)
    requires |tasks| == |placed| && forall i :: 0 <= i < |tasks| ==> tasks[i].fragments == placed[i]
    requires DistinctMiners(Holders(tasks)) && j < |tasks| && |tasks| != MINER_COUNT
    requires Bag(placed) == multiset(AllFragments(deal))
    ensures Complete(FileOf(deal, tasks, []), deal)
    ensures On(AllInfos(FileOf(deal, tasks, [])), tasks[j].miner) == multiset(tasks[j].fragments)
  {
    UnionOfTasks(tasks, placed);
    FileIsComplete(deal, Holders(tasks), j);
  }

  lemma ThreeMinersRecovered(deal: seq<Segment>, tasks: seq<Task>, j: nat)
    requires WellFormed(deal) && |tasks| == MINER_COUNT && j < |tasks| && DistinctMiners(Holders(tasks))
    requires forall i :: 0 <= i < |tasks| ==> tasks[i].fragments == Column(deal, i)
    ensures FileOf(deal, tasks, []) == ColumnFile(deal, Miners(Holders(tasks)))
    ensures Complete(FileOf(deal, tasks, []), deal)
    ensures On(AllInfos(FileOf(deal, tasks, [])), tasks[j].miner) == multiset(tasks[j].fragments)
  {
    ColumnsAreRecovered(deal, Holders(tasks));
    ColumnFileIsComplete(deal, Miners(Holders(tasks)), j);
  }

  /**
   * Placement is recovered exactly: whatever the allocator assigned, the completed file lists every fragment of the
   * deal once and in order, and on each miner exactly what was assigned to it; with three miners fragment `j` of
   * every segment lies on miner `j`, even when hashes repeat.
   */
  lemma PlacementIsRecovered(deal: seq<Segment>, candidates: seq<Candidate>, j: nat)
    requires WellFormed(deal) && 0 < |candidates| <= MINER_COUNT && j < |candidates|
    requires forall i, k :: 0 <= i < k < |candidates| ==> candidates[i].miner != candidates[k].miner
    requires forall i :: 0 <= i < |candidates| ==> candidates[i].idle > Bytes(|deal|)
    ensures var placed := PlaceAll(Empty(|candidates|), Capacities(Idles(candidates)), deal);
            placed.Some? ==>
              && |placed.value| == |candidates|
              && var tasks := TaskList(candidates, placed.value);
                 var file := FileOf(deal, tasks, []);
                 && Complete(file, deal)
                 && On(AllInfos(file), tasks[j].miner) == multiset(tasks[j].fragments)
                 && (|candidates| == MINER_COUNT ==> file == ColumnFile(deal, Miners(Holders(tasks))))
  {
    var caps := Capacities(Idles(candidates));
    AllocationIsExact(caps, deal);
    var placed := PlaceAll(Empty(|candidates|), caps, deal);
    if placed.Some? {
      var tasks := TaskList(candidates, placed.value);
      if |candidates| == MINER_COUNT {
        CapacitiesCover(candidates, |deal|);
        ThreeMinersTakeColumns(caps, deal);
        ThreeMinersRecovered(deal, tasks, j);
      } else {
        FewMinersRecovered(deal, tasks, placed.value, j);
      }
    }
  }

  lemma CapacitiesCover(candidates: seq<Candidate>, segments: nat)
    requires forall i :: 0 <= i < |candidates| ==> candidates[i].idle > Bytes(segments)
    ensures forall i :: 0 <= i < |candidates| ==> segments <= Capacities(Idles(candidates))[i]
  {
    forall i | 0 <= i < |candidates| ensures segments <= Capacities(Idles(candidates))[i] {
      CapacityIsLargest(candidates[i].idle, segments);
    }
  }

  /** No miner is over-committed: the space each must lock is strictly below its idle space. */
  lemma LocksFit(candidates: seq<Candidate>, deal: seq<Segment>, placed: Tasks, j: nat)
    requires 0 < |candidates| && j < |candidates| && candidates[j].idle > 0
    requires PlaceAll(Empty(|candidates|), Capacities(Idles(candidates)), deal) == Some(placed)
    ensures |placed| == |candidates| && Bytes(|placed[j]|) < candidates[j].idle
  {
    AllocationIsExact(Capacities(Idles(candidates)), deal);
    CapacityIsLargest(candidates[j].idle, |placed[j]|);
  }

  // ----- The reconstruction itself: sort, search, remove, mark

  predicate IsSorted(s: seq<Hash>) {
    forall i, j :: 0 <= i < j < |s| ==> s[i] <= s[j]
  }

  function Position(s: seq<Hash>, h: Hash): (k: nat)
    ensures k <= |s|
    ensures forall i :: 0 <= i < k ==> s[i] < h
    ensures k < |s| ==> h <= s[k]
  {
    if s == [] || h <= s[0] then 0 else 1 + Position(s[1..], h)
  }

  predicate Below(a: seq<Hash>, b: seq<Hash>) {
    forall i, j :: 0 <= i < |a| && 0 <= j < |b| ==> a[i] <= b[j]
  }

  lemma SortedParts(a: seq<Hash>, b: seq<Hash>)
    ensures IsSorted(a + b) <==> IsSorted(a) && IsSorted(b) && Below(a, b)
  {
    var s := a + b;
    if IsSorted(s) {
      assert forall i :: 0 <= i < |a| ==> a[i] == s[i];
      assert forall j :: 0 <= j < |b| ==> b[j] == s[|a| + j];
    }
  }

  /** One more element between two parts. */
  lemma Between(a: seq<Hash>, x: Hash, b: seq<Hash>)
    ensures multiset(a + [x] + b) == multiset(a + b) + multiset{x}
    ensures IsSorted(a + [x] + b) <==> IsSorted(a + b) && Below(a, [x]) && Below([x], b)
  {
    SortedParts(a, b);
    SortedParts(a, [x]);
    SortedParts(a + [x], b);
    assert Below(a + [x], b) <==> Below(a, b) && Below([x], b) by {
      if Below(a + [x], b) {
        assert forall i :: 0 <= i < |a| ==> a[i] == (a + [x])[i];
        assert (a + [x])[|a|] == x;
      }
    }
  }

  function Insert(s: seq<Hash>, h: Hash): seq<Hash> {
    var k := Position(s, h);
    s[..k] + [h] + s[k..]
  }

  lemma InsertKeepsSorted(s: seq<Hash>, h: Hash)
    requires IsSorted(s)
    ensures IsSorted(Insert(s, h))
    ensures multiset(Insert(s, h)) == multiset(s) + multiset{h}
  {
    var k := Position(s, h);
    var a, b := s[..k], s[k..];
    assert s == a + b;
    assert Below([h], b) by {
      forall j | 0 <= j < |b| ensures h <= b[j] {
        assert b[j] == s[k + j] && s[k] <= s[k + j];
      }
    }
    Between(a, h, b);
  }

  function Sorted(s: seq<Hash>): (r: seq<Hash>)
    ensures multiset(r) == multiset(s)
    ensures IsSorted(r)
  {
    if s == [] then []
    else
      InsertKeepsSorted(Sorted(s[1..]), s[0]);
      assert s == [s[0]] + s[1..];
      Insert(Sorted(s[1..]), s[0])
  }

  method BinarySearch(s: seq<Hash>, h: Hash) returns (r: Option<nat>)
    requires IsSorted(s)
    ensures r.Some? ==> r.value < |s| && s[r.value] == h
    ensures r.None? ==> h !in s
  {
    var lo, hi := 0, |s|;
    while lo < hi
      invariant 0 <= lo <= hi <= |s|
      invariant forall i :: 0 <= i < lo ==> s[i] < h
      invariant forall i :: hi <= i < |s| ==> h < s[i]
    {
      var mid := lo + (hi - lo) / 2;
      if s[mid] < h {
        lo := mid + 1;
      } else if h < s[mid] {
        hi := mid;
      } else {
        return Some(mid);
      }
    }
    r := None;
  }

  ghost predicate AllSorted(tasks: seq<Task>) {
    forall j :: 0 <= j < |tasks| ==> IsSorted(tasks[j].fragments)
  }

  /** The first task list that holds the fragment and may still be used, and where in it. */
  method FindTask(tasks: seq<Task>, f: Hash, marked: seq<Account>, exclusive: bool) returns (at: Option<(nat, nat)>)
    requires AllSorted(tasks)
    ensures at.None? <==> FindHolder(Holders(tasks), f, marked, exclusive).None?
    ensures at.Some? ==> && FindHolder(Holders(tasks), f, marked, exclusive) == Some(at.value.0)
                         && at.value.0 < |tasks| && at.value.1 < |tasks[at.value.0].fragments|
                         && tasks[at.value.0].fragments[at.value.1] == f
  {
    ghost var hs := Holders(tasks);
    for j := 0 to |tasks|
      invariant forall i :: 0 <= i < j ==> !Holds(hs[i], f, marked, exclusive)
    {
      if !(exclusive && tasks[j].miner in marked) {
        var found := BinarySearch(tasks[j].fragments, f);
        if found.Some? {
          assert f in multiset(tasks[j].fragments);
          assert Holds(hs[j], f, marked, exclusive);
          return Some((j, found.value));
        }
      }
    }
    at := None;
  }

  /** Takes fragment `i` off task list `j`. */
  function RemoveAt(tasks: seq<Task>, j: nat, i: nat): seq<Task>
    requires j < |tasks| && i < |tasks[j].fragments|
  {
    var list := tasks[j].fragments;
    tasks[j := tasks[j].(fragments := list[..i] + list[i + 1..])]
  }

  lemma RemoveTakes(tasks: seq<Task>, j: nat, i: nat)
    requires j < |tasks| && i < |tasks[j].fragments| && AllSorted(tasks)
    ensures Holders(RemoveAt(tasks, j, i)) == Take(Holders(tasks), j, tasks[j].fragments[i])
    ensures AllSorted(RemoveAt(tasks, j, i))
  {
    var list := tasks[j].fragments;
    RemoveFromList(list, i);
    assert Holders(RemoveAt(tasks, j, i))[j].bag == Holders(tasks)[j].bag - multiset{list[i]};
  }

  lemma RemoveFromList(list: seq<Hash>, i: nat)
    requires i < |list| && IsSorted(list)
    ensures multiset(list[..i] + list[i + 1..]) == multiset(list) - multiset{list[i]}
    ensures IsSorted(list[..i] + list[i + 1..])
  {
    assert list == list[..i] + [list[i]] + list[i + 1..];
    Between(list[..i], list[i], list[i + 1..]);
  }

  function After(done: seq<FragmentInfo>, rest: Recorded): Recorded {
    rest.(infos := done + rest.infos)
  }

  lemma RecordSplits(done: seq<FragmentInfo>, fragments: seq<Hash>, k: nat, hs: seq<Holder>, marked: seq<Account>,
                     exclusive: bool)
    requires k < |fragments|
    ensures var f, at := fragments[k], FindHolder(hs, fragments[k], marked, exclusive);
            After(done, Record(fragments[k..], hs, marked, exclusive))
            == if at.None? then After(done, Record(fragments[k + 1..], hs, marked, exclusive))
               else
                 var miner := hs[at.value].miner;
                 After(done + [FragmentInfo(f, true, miner)],
                       Record(fragments[k + 1..], Take(hs, at.value, f), marked + [miner], exclusive))
  {
    assert fragments[k..][1..] == fragments[k + 1..];
    var at := FindHolder(hs, fragments[k], marked, exclusive);
    if at.Some? {
      var miner := hs[at.value].miner;
      var rest := Record(fragments[k + 1..], Take(hs, at.value, fragments[k]), marked + [miner], exclusive);
      assert done + ([FragmentInfo(fragments[k], true, miner)] + rest.infos)
          == done + [FragmentInfo(fragments[k], true, miner)] + rest.infos;
    }
  }

  method RecordSegment(fragments: seq<Hash>, lists: seq<Task>, exclusive: bool)
    returns (infos: seq<FragmentInfo>, left: seq<Task>)
    requires AllSorted(lists)
    ensures Recorded(infos, Holders(left)) == Record(fragments, Holders(lists), [], exclusive)
  {
    infos, left := [], lists;
    var marked: seq<Account> := [];
    ghost var whole := Record(fragments, Holders(lists), [], exclusive);
    for k := 0 to |fragments|
      invariant AllSorted(left)
      invariant whole == After(infos, Record(fragments[k..], Holders(left), marked, exclusive))
    {
      RecordSplits(infos, fragments, k, Holders(left), marked, exclusive);
      var at := FindTask(left, fragments[k], marked, exclusive);
      if at.Some? {
        var (j, i) := at.value;
        RemoveTakes(left, j, i);
        infos := infos + [FragmentInfo(fragments[k], true, left[j].miner)];
        marked := marked + [left[j].miner];
        left := RemoveAt(left, j, i);
      }
    }
  }

  method FindShared(hash: Hash, share: seq<SegmentInfo>) returns (r: Option<SegmentInfo>)
    ensures r == Shared(hash, share)
  {
    for i := 0 to |share|
      invariant Shared(hash, share) == Shared(hash, share[i..])
    {
      if share[i].hash == hash {
        return Some(share[i]);
      }
      assert share[i..][1..] == share[i + 1..];
    }
    r := None;
  }

  method SortLists(tasks: seq<Task>) returns (sorted: seq<Task>)
    ensures AllSorted(sorted) && Holders(sorted) == Holders(tasks)
  {
    sorted := seq(|tasks|, j requires 0 <= j < |tasks| => tasks[j].(fragments := Sorted(tasks[j].fragments)));
  }

  /** Rebuilds where every fragment of a completed deal lies. */
  method GenerateFile(deal: seq<Segment>, tasks: seq<Task>, share: seq<SegmentInfo>) returns (file: seq<SegmentInfo>)
    ensures file == FileOf(deal, tasks, share)
  {
    file := [];
    var lists := tasks;
    var exclusive := |tasks| == MINER_COUNT;
    for s := 0 to |deal|
      invariant FileOf(deal, tasks, share) == file + RecordFile(deal[s..], Holders(lists), share, exclusive)
    {
      var shared := FindShared(deal[s].hash, share);
      FileSplits(file, deal, s, Holders(lists), share, exclusive);
      if shared.Some? {
        file := file + [SegmentInfo(deal[s].hash, shared.value.fragments)];
      } else {
        lists := SortLists(lists);
        var infos;
        infos, lists := RecordSegment(deal[s].fragments, lists, exclusive);
        file := file + [SegmentInfo(deal[s].hash, infos)];
      }
    }
  }

  lemma FileSplits(done: seq<SegmentInfo>, deal: seq<Segment>, s: nat, hs: seq<Holder>, share: seq<SegmentInfo>,
                   exclusive: bool)
    requires s < |deal|
    ensures var shared, r := Shared(deal[s].hash, share), Record(deal[s].fragments, hs, [], exclusive);
            done + RecordFile(deal[s..], hs, share, exclusive)
            == if shared.Some? then
                 done + [SegmentInfo(deal[s].hash, shared.value.fragments)]
                 + RecordFile(deal[s + 1..], hs, share, exclusive)
               else
                 done + [SegmentInfo(deal[s].hash, r.infos)] + RecordFile(deal[s + 1..], r.holders, share, exclusive)
  {
    assert deal[s..][1..] == deal[s + 1..];
  }
}

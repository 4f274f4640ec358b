/**
 * Service space and stored files: across whole runs, what the miners and the network count as service space is the
 * fragments that the file records place on them.
 */
module StoredFiles {
  import opened Base
  import opened Allocation
  import opened Placement
  import opened Deals
  import US = UserSpace

  // ----- Weighing file records

  /** Fragments recorded on one miner, or on all. */
  function Weigh(infos: seq<FragmentInfo>, who: Option<Account>): nat {
    if infos == [] then 0
    else (if who.None? || infos[0].miner == who.value then 1 else 0) + Weigh(infos[1..], who)
  }

  lemma {:induction false} WeighAppend(a: seq<FragmentInfo>, b: seq<FragmentInfo>, who: Option<Account>)
    ensures Weigh(a + b, who) == Weigh(a, who) + Weigh(b, who)
  {
    if a == [] {
      assert a + b == b;
    } else {
      WeighAppend(a[1..], b, who);
      assert (a + b)[1..] == a[1..] + b;
    }
  }

  lemma {:induction false} WeighIsOn(infos: seq<FragmentInfo>, who: Account)
    ensures Weigh(infos, Some(who)) == |On(infos, who)|
  {
    if infos != [] {
      WeighIsOn(infos[1..], who);
    }
  }

  lemma {:induction false} WeighAll(infos: seq<FragmentInfo>)
    ensures Weigh(infos, None) == |infos|
  {
    if infos != [] {
      WeighAll(infos[1..]);
    }
  }

  function Weights(files: map<Hash, File>, who: Option<Account>): map<Hash, nat> {
    map h | h in files :: Weigh(AllInfos(files[h].segments), who)
  }

  /** Fragments of all stored files on one miner, or on all. */
  ghost function Stored(files: map<Hash, File>, who: Option<Account>): nat {
    MapSum(Weights(files, who))
  }

  function WeightAt(files: map<Hash, File>, h: Hash, who: Option<Account>): nat {
    if h in files then Weigh(AllInfos(files[h].segments), who) else 0
  }

  lemma StoredElsewhere(files: map<Hash, File>, h: Hash, who: Option<Account>)
    ensures Stored(files, who) == Stored(files - {h}, who) + WeightAt(files, h, who)
  {
    MapSumRemove(Weights(files, who), h);
    assert Weights(files - {h}, who) == Weights(files, who) - {h};
  }

  // ----- The record of a deal weighs what its tasks do

  lemma {:induction false} LoadOfTask(tasks: seq<Task>, j: nat)
    requires j < |tasks| && forall i, k :: 0 <= i < k < |tasks| ==> tasks[i].miner != tasks[k].miner
    ensures Load(tasks, tasks[j].miner) == |tasks[j].fragments|
  {
    if j > 0 {
      LoadOfTask(tasks[1..], j - 1);
    } else {
      NoLoad(tasks[1..], tasks[0].miner);
    }
  }

  lemma {:induction false} NoLoad(tasks: seq<Task>, who: Account)
    requires !Assignee(tasks, who)
    ensures Load(tasks, who) == 0
  {
    if tasks != [] {
      assert tasks[0].miner != who;
      assert forall i :: 0 <= i < |tasks[1..]| ==> tasks[1..][i] == tasks[i + 1];
      NoLoad(tasks[1..], who);
    }
  }

  lemma {:induction false} NoWeight(infos: seq<FragmentInfo>, ms: Miners, who: Account)
    requires KnownInfos(infos, ms) && who !in ms
    ensures Weigh(infos, Some(who)) == 0
  {
    if infos != [] {
      NoWeight(infos[1..], ms, who);
    }
  }

  /** Nobody without an assignment is recorded. */
  lemma OutsidersHoldNothing(segments: seq<Segment>, tasks: seq<Task>, who: Account)
    requires !Assignee(tasks, who)
    ensures Weigh(AllInfos(FileOf(segments, tasks, [])), Some(who)) == 0
  {
    var ms: Miners := map j | 0 <= j < |tasks| :: tasks[j].miner := Miner(true, 0, 0, 0);
    FileIsKnown(segments, Holders(tasks), |tasks| == MINER_COUNT, ms);
    NoWeight(AllInfos(FileOf(segments, tasks, [])), ms, who);
  }

  /** The record lists all fragments of the segments, and as many on an account as were assigned to it. */
  ghost predicate Recovers(segments: seq<Segment>, tasks: seq<Task>, who: Account) {
    && WellFormed(segments)
    && Complete(FileOf(segments, tasks, []), segments)
    && Weigh(AllInfos(FileOf(segments, tasks, [])), Some(who)) == Load(tasks, who)
  }

  lemma AssignedRecovers(ms: Miners, segments: seq<Segment>, chosen: seq<Candidate>, who: Account)
    requires WellFormed(segments) && ValidChoice(ms, |segments|, chosen) && Assigned(segments, chosen).Some?
    ensures Recovers(segments, Assigned(segments, chosen).value, who)
  {
    var tasks := Assigned(segments, chosen).value;
    var infos := AllInfos(FileOf(segments, tasks, []));
    PlacementIsRecovered(segments, chosen, 0);
    if Assignee(tasks, who) {
      var j :| 0 <= j < |tasks| && tasks[j].miner == who;
      PlacementIsRecovered(segments, chosen, j);
      WeighIsOn(infos, who);
      LoadOfTask(tasks, j);
    } else {
      OutsidersHoldNothing(segments, tasks, who);
      NoLoad(tasks, who);
    }
  }

  lemma {:induction false} CompleteSize(file: seq<SegmentInfo>, segments: seq<Segment>)
    requires WellFormed(segments) && Complete(file, segments)
    ensures Weigh(AllInfos(file), None) == 3 * |segments|
  {
    WeighAll(AllInfos(file));
    if file != [] {
      assert |Hashes(file[0].fragments)| == |segments[0].fragments| == 3;
      CompleteSize(file[1..], segments[1..]);
      WeighAll(AllInfos(file[1..]));
    }
  }

  // ----- What every call keeps

  function Service(ms: Miners, who: Account): nat {
    if who in ms then ms[who].service else 0
  }

  /** Deals whose file is recorded but not yet active: their space is still locked. */
  function Finishing(s: State): map<Hash, Deal> {
    map h | h in s.deals && h in s.files :: s.deals[h]
  }

  /** A deal recovers, a file is active exactly when its deal is over, and a recorded file is never reassigned. */
  ghost predicate SoundAt(s: State, h: Hash, who: Account) {
    && (h in s.deals ==> Recovers(s.deals[h].segments, s.deals[h].tasks, who))
    && (h in s.files ==> (s.files[h].active <==> h !in s.deals))
    && (h in s.files && h in s.deals && h in s.scheduled ==> s.scheduled[h].Finish?)
  }

  ghost predicate Sound(s: State, who: Account) {
    forall h :: SoundAt(s, h, who)
  }

  ghost predicate Good(s: State, who: Account) {
    Known(s) && Conserved(s) && Sound(s, who)
  }

  /** A miner's service space, and what deals will still add to it, beyond what the files place on the miner. */
  ghost function Drift(s: State, who: Account): int {
    Service(s.miners, who) + Bytes(OpenLoad(Finishing(s), who)) - Bytes(Stored(s.files, Some(who)))
  }

  /** The network's service space beyond the size of the stored files. */
  ghost function Overcount(s: State): int {
    s.totalService - Bytes(Stored(s.files, None))
  }

  /** What one step owes the next: sound states stay sound, and the counters shift by what strays or counts again. */
  ghost predicate Accounts(s: State, s': State, who: Account, stray: int, again: nat) {
    && Sound(s', who)
    && Drift(s', who) == Drift(s, who) + stray * 8_388_608
    && Overcount(s') == Overcount(s) + Bytes(again)
  }

  function PendingAt(s: State, h: Hash, who: Account): nat {
    if h in s.deals && h in s.files then Load(s.deals[h].tasks, who) else 0
  }

  lemma PendingElsewhere(s: State, h: Hash, who: Account)
    ensures OpenLoad(Finishing(s), who) == OpenLoad(Finishing(s) - {h}, who) + PendingAt(s, h, who)
  {
    if h in Finishing(s) {
      OpenLoadRemove(Finishing(s), h, who);
    } else {
      assert Finishing(s) - {h} == Finishing(s);
    }
  }

  /** Only what is stored under one hash may differ. */
  ghost predicate SameElsewhere(s: State, s': State, h: Hash) {
    && s'.deals - {h} == s.deals - {h}
    && s'.files - {h} == s.files - {h}
    && s'.scheduled - {h} == s.scheduled - {h}
  }

  lemma SoundElsewhere(s: State, s': State, h: Hash, who: Account)
    requires Sound(s, who) && SoundAt(s', h, who) && SameElsewhere(s, s', h)
    ensures Sound(s', who)
  {
    forall k ensures SoundAt(s', k, who) {
      if k != h {
        assert SoundAt(s, k, who);
        assert k in s'.deals - {h} <==> k in s.deals - {h};
        assert k in s'.files - {h} <==> k in s.files - {h};
        assert k in s'.scheduled - {h} <==> k in s.scheduled - {h};
        assert k in s.deals ==> s'.deals[k] == (s'.deals - {h})[k] == (s.deals - {h})[k];
        assert k in s.files ==> s'.files[k] == (s'.files - {h})[k] == (s.files - {h})[k];
        assert k in s.scheduled ==> s'.scheduled[k] == (s'.scheduled - {h})[k] == (s.scheduled - {h})[k];
      }
    }
  }

  lemma FinishingElsewhere(s: State, s': State, h: Hash)
    requires SameElsewhere(s, s', h)
    ensures Finishing(s') - {h} == Finishing(s) - {h}
  {
    forall k | k != h
      ensures (k in s'.deals <==> k in s.deals) && (k in s'.files <==> k in s.files)
      ensures k in s.deals ==> s'.deals[k] == s.deals[k]
    {
      assert k in s'.deals - {h} <==> k in s.deals - {h};
      assert k in s'.files - {h} <==> k in s.files - {h};
      assert k in s.deals ==> s'.deals[k] == (s'.deals - {h})[k] == (s.deals - {h})[k];
    }
  }

  /** A step that touches one hash accounts for itself there. */
  lemma StepAt(s: State, s': State, h: Hash, who: Account, stray: int, again: nat)
    requires Sound(s, who) && SameElsewhere(s, s', h) && SoundAt(s', h, who)
    requires Service(s'.miners, who) + Bytes(PendingAt(s', h, who)) - Bytes(WeightAt(s'.files, h, Some(who)))
          == Service(s.miners, who) + Bytes(PendingAt(s, h, who)) - Bytes(WeightAt(s.files, h, Some(who)))
             + stray * 8_388_608
    requires s'.totalService - Bytes(WeightAt(s'.files, h, None))
          == s.totalService - Bytes(WeightAt(s.files, h, None)) + Bytes(again)
    ensures Accounts(s, s', who, stray, again)
  {
    SoundElsewhere(s, s', h, who);
    FinishingElsewhere(s, s', h);
    PendingElsewhere(s, h, who);
    PendingElsewhere(s', h, who);
    StoredElsewhere(s.files, h, Some(who));
    StoredElsewhere(s'.files, h, Some(who));
    StoredElsewhere(s.files, h, None);
    StoredElsewhere(s'.files, h, None);
  }

  /** Neither deals nor files change. */
  lemma RestKept(s: State, s': State, who: Account)
    requires Sound(s, who) && s'.deals == s.deals && s'.files == s.files && s'.totalService == s.totalService
    requires Service(s'.miners, who) == Service(s.miners, who)
    requires forall h :: h in s'.scheduled ==> h in s.scheduled && s'.scheduled[h] == s.scheduled[h]
    ensures Accounts(s, s', who, 0, 0)
  {
    assert Finishing(s') == Finishing(s);
    forall h ensures SoundAt(s', h, who) {
      assert SoundAt(s, h, who);
    }
  }

  /** One file's record is rewritten, keeping whether it is active. */
  lemma FileKept(s: State, s': State, h: Hash, file: File, who: Account)
    requires Sound(s, who) && h in s.files && s'.files == s.files[h := file] && file.active == s.files[h].active
    requires s'.deals == s.deals && s'.scheduled == s.scheduled && s'.totalService == s.totalService
    requires Weigh(AllInfos(file.segments), None) == Weigh(AllInfos(s.files[h].segments), None)
    requires Bytes(Weigh(AllInfos(file.segments), Some(who))) - Service(s'.miners, who)
          == Bytes(Weigh(AllInfos(s.files[h].segments), Some(who))) - Service(s.miners, who)
    ensures Accounts(s, s', who, 0, 0)
  {
    assert SoundAt(s, h, who);
    StepAt(s, s', h, who, 0, 0);
  }

  lemma {:induction false} MoveAllService(ms: Miners, move: Move, tasks: seq<Task>, who: Account)
    requires MoveAll(ms, move, tasks).Some? && KnownTasks(tasks, ms)
    ensures Service(MoveAll(ms, move, tasks).value, who)
         == Service(ms, who) + if move.Serve? then Bytes(Load(tasks, who)) else 0
    decreases |tasks|
  {
    if tasks != [] {
      MoveAllService(MoveSpace(ms, move, tasks[0].miner, Bytes(|tasks[0].fragments|)).value, move, tasks[1..], who);
    }
  }

  lemma DeclareAccounts(s: State, user: Account, h: Hash, segments: seq<Segment>, chosen: seq<Candidate>, who: Account)
    requires Good(s, who) && user in s.users && WellFormed(segments) && h !in s.files
    requires DeclareDeal(s, user, h, segments, chosen).Some?
    ensures Accounts(s, DeclareDeal(s, user, h, segments, chosen).value, who, 0, 0)
  {
    var s' := DeclareDeal(s, user, h, segments, chosen).value;
    AssignedRecovers(s.miners, segments, chosen, who);
    AssignedIsKnown(s.miners, segments, chosen);
    MoveAllService(s.miners, Lock, Assigned(segments, chosen).value, who);
    StepAt(s, s', h, who, 0, 0);
  }

  lemma NewMinersAccounts(s: State, h: Hash, count: nat, chosen: seq<Candidate>, who: Account)
    requires Sound(s, who) && h in s.deals && h !in s.files && NewMiners(s, h, s.deals[h], count, chosen).Some?
    ensures Accounts(s, NewMiners(s, h, s.deals[h], count, chosen).value, who, 0, 0)
  {
    var s', deal := NewMiners(s, h, s.deals[h], count, chosen).value, s.deals[h];
    assert SoundAt(s, h, who);
    AssignedRecovers(s.miners, deal.segments, chosen, who);
    AssignedIsKnown(s.miners, deal.segments, chosen);
    MoveAllService(s.miners, Lock, Assigned(deal.segments, chosen).value, who);
    StepAt(s, s', h, who, 0, 0);
  }

  lemma ReassignAccounts(s: State, h: Hash, count: nat, chosen: seq<Candidate>, who: Account)
    requires Good(s, who) && h !in s.files && ReassignDeal(s, h, count, chosen).Some?
    ensures Accounts(s, ReassignDeal(s, h, count, chosen).value, who, 0, 0)
  {
    var tasks := s.deals[h].tasks;
    var freed := s.(miners := MoveAll(s.miners, Unlock, tasks).value);
    MoveAllService(s.miners, Unlock, tasks, who);
    RestKept(s, freed, who);
    if count < MAX_REASSIGN {
      NewMinersAccounts(freed, h, count, chosen, who);
    } else {
      var s' := ReassignDeal(s, h, count, chosen).value;
      StepAt(freed, s', h, who, 0, 0);
    }
  }

  lemma FinishAccounts(s: State, h: Hash, who: Account)
    requires Good(s, who) && FinishDeal(s, h).Some?
    ensures Accounts(s, FinishDeal(s, h).value, who, 0, 0)
  {
    var s' := FinishDeal(s, h).value;
    MoveAllService(s.miners, Serve, s.deals[h].tasks, who);
    StepAt(s, s', h, who, 0, 0);
  }

  lemma DueAccounts(s: State, h: Hash, due: Pending, chosen: seq<Candidate>, who: Account)
    requires Good(s, who) && (due.Reassign? && h in s.deals ==> h !in s.files)
    ensures var r := if due.Reassign? then ReassignDeal(s, h, due.count, chosen) else FinishDeal(s, h);
            r.Some? ==> Accounts(s, r.value, who, 0, 0)
  {
    if due.Finish? {
      if FinishDeal(s, h).Some? {
        FinishAccounts(s, h, who);
      }
    } else if ReassignDeal(s, h, due.count, chosen).Some? {
      ReassignAccounts(s, h, due.count, chosen, who);
    }
  }

  lemma FireAccounts(s: State, h: Hash, chosen: seq<Candidate>, who: Account)
    requires Good(s, who) && h in s.scheduled
    ensures Accounts(s, Fire(s, h, chosen).value, who, 0, 0)
  {
    var freed := s.(scheduled := s.scheduled - {h});
    assert SoundAt(s, h, who);
    assert Known(freed) && Conserved(freed);
    RestKept(s, freed, who);
    DueAccounts(freed, h, s.scheduled[h], chosen, who);
  }

  // ----- Reports

  /** The report that completes a deal, for the first time or again. */
  predicate IsLastReport(s: State, reporter: Account, h: Hash) {
    && h in s.deals && Assignee(s.deals[h].tasks, reporter)
    && |s.deals[h].complete| + (if reporter in s.deals[h].complete then 0 else 1) == |s.deals[h].tasks|
  }

  /** Fragments of a record that a repeated report writes again. */
  function Rewritten(s: State, reporter: Account, h: Hash, who: Option<Account>): nat {
    if IsLastReport(s, reporter, h) then WeightAt(s.files, h, who) else 0
  }

  /** What a repeated report moves off a miner: restored fragments return to the miner they were assigned to. */
  function ReportOneStray(s: State, reporter: Account, h: Hash, who: Account): int {
    if IsLastReport(s, reporter, h) && h in s.files
    then Rewritten(s, reporter, h, Some(who)) - Load(s.deals[h].tasks, who) else 0
  }

  /** The record that completing a deal writes is as large as the space the deal asked for. */
  lemma RecordSize(segments: seq<Segment>, tasks: seq<Task>, who: Account)
    requires Recovers(segments, tasks, who)
    ensures Bytes(Weigh(AllInfos(FileOf(segments, tasks, [])), None)) == Needed(|segments|)
  {
    CompleteSize(FileOf(segments, tasks, []), segments);
    NeededIsThree(|segments|);
  }

  lemma CompleteAccounts(s: State, h: Hash, deal: Deal, who: Account)
    requires Sound(s, who) && h in s.deals && deal.tasks == s.deals[h].tasks && deal.segments == s.deals[h].segments
    requires CompleteDeal(s, h, deal).Some?
    ensures Accounts(s, CompleteDeal(s, h, deal).value, who,
                     if h in s.files then WeightAt(s.files, h, Some(who)) - Load(deal.tasks, who) else 0,
                     WeightAt(s.files, h, None))
  {
    var s', again := CompleteDeal(s, h, deal).value, WeightAt(s.files, h, None);
    var stray := if h in s.files then WeightAt(s.files, h, Some(who)) - Load(deal.tasks, who) else 0;
    assert SoundAt(s, h, who);
    RecordSize(deal.segments, deal.tasks, who);
    assert SoundAt(s', h, who);
    StepAt(s, s', h, who, stray, again);
  }

  lemma ReportedAccounts(s: State, h: Hash, complete: seq<Account>, who: Account)
    requires Sound(s, who) && h in s.deals
    ensures Accounts(s, s.(deals := s.deals[h := s.deals[h].(complete := complete)]), who, 0, 0)
  {
    assert SoundAt(s, h, who);
    StepAt(s, s.(deals := s.deals[h := s.deals[h].(complete := complete)]), h, who, 0, 0);
  }

  lemma ReportOneAccounts(s: State, reporter: Account, h: Hash, who: Account)
    requires Sound(s, who) && ReportOne(s, reporter, h).Some?
    ensures Accounts(s, ReportOne(s, reporter, h).value, who,
                     ReportOneStray(s, reporter, h, who), Rewritten(s, reporter, h, None))
  {
    if h in s.deals && Assignee(s.deals[h].tasks, reporter) {
      var deal := s.deals[h];
      var complete := if reporter in deal.complete then deal.complete else deal.complete + [reporter];
      if |complete| == |deal.tasks| {
        CompleteAccounts(s, h, deal.(complete := complete), who);
      } else {
        ReportedAccounts(s, h, complete, who);
      }
    }
  }

  function ReportStray(s: State, reporter: Account, hashes: seq<Hash>, who: Account): int
    decreases |hashes|
  {
    if hashes == [] || ReportOne(s, reporter, hashes[0]).None? then 0
    else ReportOneStray(s, reporter, hashes[0], who)
         + ReportStray(ReportOne(s, reporter, hashes[0]).value, reporter, hashes[1..], who)
  }

  function ReportAgain(s: State, reporter: Account, hashes: seq<Hash>): nat
    decreases |hashes|
  {
    if hashes == [] || ReportOne(s, reporter, hashes[0]).None? then 0
    else Rewritten(s, reporter, hashes[0], None)
         + ReportAgain(ReportOne(s, reporter, hashes[0]).value, reporter, hashes[1..])
  }

  lemma {:induction false} ReportAccounts(s: State, reporter: Account, hashes: seq<Hash>, who: Account)
    requires Good(s, who) && Report(s, reporter, hashes).Some?
    ensures Accounts(s, Report(s, reporter, hashes).value, who,
                     ReportStray(s, reporter, hashes, who), ReportAgain(s, reporter, hashes))
    decreases |hashes|
  {
    if hashes != [] {
      ReportOneKeeps(s, reporter, hashes[0], who);
      ReportOneAccounts(s, reporter, hashes[0], who);
      ReportAccounts(ReportOne(s, reporter, hashes[0]).value, reporter, hashes[1..], who);
    }
  }

  // ----- Deletions

  lemma {:induction false} TakeServiceWeighs(ms: Miners, infos: seq<FragmentInfo>, who: Account)
    requires KnownInfos(infos, ms) && TakeService(ms, infos).Some?
    ensures Service(TakeService(ms, infos).value, who) == Service(ms, who) - Bytes(Weigh(infos, Some(who)))
    decreases |infos|
  {
    if infos != [] {
      var m := ms[infos[0].miner];
      TakeServiceWeighs(ms[infos[0].miner := m.(service := m.service - FRAGMENT_SIZE)], infos[1..], who);
    }
  }

  /** What emptying a bucket strands: service space is taken for a file whose space is still locked. */
  function Stranded(s: State, h: Hash, who: Account): nat {
    if h in s.deals then Load(s.deals[h].tasks, who) else 0
  }

  lemma LastOwnerAccounts(s: State, h: Hash, owner: Account, who: Account)
    requires Good(s, who) && h in s.files && RemoveLastOwner(s, h, owner).Some?
    ensures Accounts(s, RemoveLastOwner(s, h, owner).value, who, 0 - Stranded(s, h, who), 0)
  {
    var s', infos := RemoveLastOwner(s, h, owner).value, AllInfos(s.files[h].segments);
    assert KnownInfos(infos, s.miners);
    TakeServiceWeighs(s.miners, infos, who);
    WeighAll(infos);
    assert SoundAt(s, h, who);
    StepAt(s, s', h, who, 0 - Stranded(s, h, who), 0);
  }

  lemma OwnerAccounts(s: State, h: Hash, owner: Account, who: Account)
    requires Good(s, who) && RemoveOwner(s, h, owner).Some?
    ensures Accounts(s, RemoveOwner(s, h, owner).value, who, 0, 0)
  {
    if owner in s.files[h].owners {
      FileKept(s, RemoveOwner(s, h, owner).value, h, RemoveOwner(s, h, owner).value.files[h], who);
    }
  }

  lemma {:induction false} OwnersAccount(s: State, h: Hash, owner: Account, owners: seq<Account>, who: Account)
    requires Good(s, who) && RemoveOwners(s, h, owner, owners).Some?
    ensures Accounts(s, RemoveOwners(s, h, owner, owners).value, who, 0, 0)
    decreases |owners|
  {
    if owners != [] {
      if owners[0] == owner {
        OwnerKeeps(s, h, owner, who);
        OwnerAccounts(s, h, owner, who);
        OwnersAccount(RemoveOwner(s, h, owner).value, h, owner, owners[1..], who);
      } else {
        OwnersAccount(s, h, owner, owners[1..], who);
      }
    }
  }

  /** Only emptying a bucket can strand space; deleting a file asks for an active one. */
  function EmptyOneStrands(s: State, h: Hash, who: Account): nat {
    if h in s.files && |s.files[h].owners| <= 1 then Stranded(s, h, who) else 0
  }

  lemma EmptyOneAccounts(s: State, h: Hash, owner: Account, who: Account)
    requires Good(s, who) && EmptyOne(s, h, owner).Some?
    ensures Known(EmptyOne(s, h, owner).value) && Conserved(EmptyOne(s, h, owner).value)
    ensures Accounts(s, EmptyOne(s, h, owner).value, who, 0 - EmptyOneStrands(s, h, who), 0)
  {
    if |s.files[h].owners| > 1 {
      OwnerKeeps(s, h, owner, who);
      OwnerAccounts(s, h, owner, who);
    } else {
      LastOwnerKeeps(s, h, owner, who);
      LastOwnerAccounts(s, h, owner, who);
    }
  }

  lemma DeleteOneAccounts(s: State, h: Hash, owner: Account, who: Account)
    requires Good(s, who) && DeleteOne(s, h, owner).Some?
    ensures Known(DeleteOne(s, h, owner).value) && Conserved(DeleteOne(s, h, owner).value)
    ensures Accounts(s, DeleteOne(s, h, owner).value, who, 0, 0)
  {
    var owners := s.files[h].owners;
    assert SoundAt(s, h, who);
    if |owners| > 1 {
      OwnersKeep(s, h, owner, owners, who);
      OwnersAccount(s, h, owner, owners, who);
    } else if owners == [owner] {
      LastOwnerKeeps(s, h, owner, who);
      LastOwnerAccounts(s, h, owner, who);
    }
  }

  function EmptyStrands(s: State, owner: Account, hashes: seq<Hash>, who: Account): nat
    decreases |hashes|
  {
    if hashes == [] || EmptyOne(s, hashes[0], owner).None? then 0
    else EmptyOneStrands(s, hashes[0], who) + EmptyStrands(EmptyOne(s, hashes[0], owner).value, owner, hashes[1..], who)
  }

  lemma {:induction false} DeleteAccounts(s: State, owner: Account, hashes: seq<Hash>, bucket: bool, who: Account)
    requires Good(s, who) && Delete(s, owner, hashes, bucket).Some?
    ensures Accounts(s, Delete(s, owner, hashes, bucket).value, who,
                     if bucket then 0 - EmptyStrands(s, owner, hashes, who) else 0, 0)
    decreases |hashes|
  {
    if hashes != [] {
      if bucket {
        EmptyOneAccounts(s, hashes[0], owner, who);
        DeleteAccounts(EmptyOne(s, hashes[0], owner).value, owner, hashes[1..], bucket, who);
      } else {
        DeleteOneAccounts(s, hashes[0], owner, who);
        DeleteAccounts(DeleteOne(s, hashes[0], owner).value, owner, hashes[1..], bucket, who);
      }
    }
  }

  // ----- Restoral

  function One(holds: bool): nat { if holds then 1 else 0 }

  lemma {:induction false} RewriteWeighs(infos: seq<FragmentInfo>, f: Hash, from: Account, info: FragmentInfo,
                                         who: Option<Account>)
    requires Rewrite(infos, f, from, info).Some?
    ensures Weigh(Rewrite(infos, f, from, info).value, who)
         == Weigh(infos, who) - One(who.None? || from == who.value) + One(who.None? || info.miner == who.value)
  {
    var written := Rewrite(infos, f, from, info).value;
    if infos[0].hash == f && infos[0].miner == from {
      assert written[1..] == infos[1..];
    } else {
      RewriteWeighs(infos[1..], f, from, info, who);
      assert written[1..] == Rewrite(infos[1..], f, from, info).value;
    }
  }

  lemma {:induction false} RewriteFileWeighs(segments: seq<SegmentInfo>, f: Hash, from: Account, info: FragmentInfo,
                                             who: Option<Account>)
    requires RewriteFile(segments, f, from, info).Some?
    ensures Weigh(AllInfos(RewriteFile(segments, f, from, info).value), who)
         == Weigh(AllInfos(segments), who)
            - One(who.None? || from == who.value) + One(who.None? || info.miner == who.value)
  {
    var written := RewriteFile(segments, f, from, info).value;
    WeighAppend(segments[0].fragments, AllInfos(segments[1..]), who);
    if Rewrite(segments[0].fragments, f, from, info).Some? {
      RewriteWeighs(segments[0].fragments, f, from, info, who);
      assert written[1..] == segments[1..];
    } else {
      RewriteFileWeighs(segments[1..], f, from, info, who);
      assert written[1..] == RewriteFile(segments[1..], f, from, info).value;
    }
    WeighAppend(written[0].fragments, AllInfos(written[1..]), who);
  }

  lemma GenerateAccounts(s: State, miner: Account, file: Hash, f: Hash, who: Account)
    requires Good(s, who) && GenerateOrder(s, miner, file, f).Some?
    ensures Accounts(s, GenerateOrder(s, miner, file, f).value, who, 0, 0)
  {
    var s', info := GenerateOrder(s, miner, file, f).value, FragmentInfo(f, false, miner);
    RewriteFileWeighs(s.files[file].segments, f, miner, info, Some(who));
    RewriteFileWeighs(s.files[file].segments, f, miner, info, None);
    FileKept(s, s', file, s'.files[file], who);
  }

  lemma RestoreAccounts(s: State, miner: Account, f: Hash, order: Order, who: Account)
    requires Good(s, who) && miner in s.miners && Restore(s, miner, f, order).Some?
    ensures Accounts(s, Restore(s, miner, f, order).value, who, 0, 0)
  {
    if order.file in s.files {
      var segments, info := s.files[order.file].segments, FragmentInfo(f, true, miner);
      assert KnownInfos(AllInfos(segments), s.miners);
      if RewriteFile(segments, f, order.origin, info).Some? {
        var s' := Restore(s, miner, f, order).value;
        RewriteFileIsKnown(segments, f, order.origin, info, s.miners);
        RewriteFileWeighs(segments, f, order.origin, info, Some(who));
        RewriteFileWeighs(segments, f, order.origin, info, None);
        TakeServiceWeighs(s.miners, [FragmentInfo(f, true, order.origin)], who);
        FileKept(s, s', order.file, s'.files[order.file], who);
      }
    }
  }

  lemma CompleteOrderAccounts(s: State, miner: Account, f: Hash, now: nat, who: Account)
    requires Good(s, who) && CompleteOrder(s, miner, f, now).Some?
    ensures Accounts(s, CompleteOrder(s, miner, f, now).value, who, 0, 0)
  {
    var done := s.(orders := s.orders - {f});
    RestKept(s, done, who);
    assert Known(done) && Conserved(done);
    RestoreAccounts(done, miner, f, s.orders[f], who);
  }

  // ----- Runs

  function Stray(s: State, e: Event, who: Account): int {
    if Step(s, e).None? then 0
    else match e
      case EvReport(reporter, hashes) => ReportStray(s, reporter, hashes, who)
      case EvDelete(owner, hashes, bucket) => if bucket then 0 - EmptyStrands(s, owner, hashes, who) else 0
      case _ => 0
  }

  function Again(s: State, e: Event): nat {
    if e.EvReport? && Step(s, e).Some? then ReportAgain(s, e.who, e.hashes) else 0
  }

  lemma PlainAccounts(s: State, e: Event, who: Account)
    requires Good(s, who) && Step(s, e).Some?
    requires || e.EvRegister? || e.EvSetState? || e.EvBuySpace? || e.EvExpandSpace? || e.EvFreeze?
             || e.EvUploadFiller? || e.EvDeleteFiller? || e.EvClaimOrder?
    ensures Accounts(s, Step(s, e).value, who, 0, 0)
  {
    RestKept(s, Step(s, e).value, who);
  }

  lemma JoinAccounts(s: State, user: Account, h: Hash, segments: seq<Segment>, chosen: seq<Candidate>, who: Account)
    requires Good(s, who) && h in s.files && Declare(s, user, h, segments, chosen).Some?
    ensures Accounts(s, Declare(s, user, h, segments, chosen).value, who, 0, 0)
  {
    var s' := Declare(s, user, h, segments, chosen).value;
    FileKept(s, s', h, s'.files[h], who);
  }

  lemma NextAccounts(s: State, e: Event, who: Account)
    requires Good(s, who)
    ensures Accounts(s, Next(s, e), who, Stray(s, e, who), Again(s, e))
  {
    if Step(s, e).Some? {
      match e
      case EvDeclare(user, h, segments, chosen) =>
        if h in s.files {
          JoinAccounts(s, user, h, segments, chosen, who);
        } else {
          DeclareAccounts(s, user, h, segments, chosen, who);
        }
      case EvFire(h, chosen) => FireAccounts(s, h, chosen, who);
      case EvReport(miner, hashes) => ReportAccounts(s, miner, hashes, who);
      case EvDelete(owner, hashes, bucket) => DeleteAccounts(s, owner, hashes, bucket, who);
      case EvGenerateOrder(miner, file, h) => GenerateAccounts(s, miner, file, h, who);
      case EvCompleteOrder(miner, h, now) => CompleteOrderAccounts(s, miner, h, now, who);
      case _ => PlainAccounts(s, e, who);
    }
  }

  function TotalStray(s: State, es: seq<Event>, who: Account): int
    decreases |es|
  {
    if es == [] then 0 else Stray(s, es[0], who) + TotalStray(Next(s, es[0]), es[1..], who)
  }

  function TotalAgain(s: State, es: seq<Event>): nat
    decreases |es|
  {
    if es == [] then 0 else Again(s, es[0]) + TotalAgain(Next(s, es[0]), es[1..])
  }

  lemma {:induction false} RunAccounts(s: State, es: seq<Event>, who: Account)
    requires Good(s, who)
    ensures Good(Run(s, es), who) && Accounts(s, Run(s, es), who, TotalStray(s, es, who), TotalAgain(s, es))
    decreases |es|
  {
    if es != [] {
      NextKeeps(s, es[0], who);
      NextAccounts(s, es[0], who);
      RunAccounts(Next(s, es[0]), es[1..], who);
    }
  }

  /** From genesis, what drifts is what strayed, and what is overcounted was counted again. */
  lemma GenesisRun(s: State, es: seq<Event>, who: Account)
    requires IsGenesis(s)
    ensures Sound(Run(s, es), who)
    ensures Drift(Run(s, es), who) == TotalStray(s, es, who) * 8_388_608
    ensures Overcount(Run(s, es)) == Bytes(TotalAgain(s, es))
  {
    GenesisIsGood(s, who);
    assert LoadsBy(Finishing(s), who) == map[];
    assert Weights(s.files, Some(who)) == map[];
    assert Weights(s.files, None) == map[];
    RunAccounts(s, es, who);
  }

  /**
   * Service space matches the files: in every run a miner's service space, with what the deals being finished will
   * add, is the size of the fragments that all file records place on it, plus the strays. Only two calls stray:
   * a report repeated after a fragment of the file was restored elsewhere, and emptying a bucket that holds a file
   * still being calculated.
   */
  lemma ServiceMatchesFiles(s: State, es: seq<Event>, who: Account)
    requires IsGenesis(s)
    ensures var r := Run(s, es);
            && Service(r.miners, who) + Bytes(OpenLoad(Finishing(r), who))
               == Bytes(Stored(r.files, Some(who))) + TotalStray(s, es, who) * 8_388_608
  {
    GenesisRun(s, es, who);
  }

  /** The network's service space is the size of all stored files plus that of every record written again. */
  lemma TotalServiceIsStored(s: State, es: seq<Event>)
    requires IsGenesis(s)
    ensures Run(s, es).totalService == Bytes(Stored(Run(s, es).files, None) + TotalAgain(s, es))
  {
    GenesisRun(s, es, 0);
  }

  /** So deleting a file never takes more than the network counts, in any run. */
  lemma DeletionFitsTotal(s: State, es: seq<Event>, h: Hash)
    requires IsGenesis(s) && h in Run(s, es).files
    ensures Bytes(|AllInfos(Run(s, es).files[h].segments)|) <= Run(s, es).totalService
  {
    TotalServiceIsStored(s, es);
    WeighAll(AllInfos(Run(s, es).files[h].segments));
    StoredElsewhere(Run(s, es).files, h, None);
  }

  /** Every open deal of a run records all its fragments, each miner's where they were assigned, once it completes. */
  lemma OpenDealsRecover(s: State, es: seq<Event>, h: Hash, who: Account)
    requires IsGenesis(s) && h in Run(s, es).deals
    ensures var deal := Run(s, es).deals[h];
            && WellFormed(deal.segments)
            && Complete(FileOf(deal.segments, deal.tasks, []), deal.segments)
            && |On(AllInfos(FileOf(deal.segments, deal.tasks, [])), who)| == Load(deal.tasks, who)
  {
    GenesisRun(s, es, who);
    var deal := Run(s, es).deals[h];
    WeighIsOn(AllInfos(FileOf(deal.segments, deal.tasks, [])), who);
    assert SoundAt(Run(s, es), h, who);
  }

  // ----- When deleting an active file finds its space

  lemma {:induction false} TakeServiceSucceeds(ms: Miners, infos: seq<FragmentInfo>)
    requires KnownInfos(infos, ms)
    requires forall a: Account :: Bytes(Weigh(infos, Some(a))) <= Service(ms, a)
    ensures TakeService(ms, infos).Some?
    decreases |infos|
  {
    if infos != [] {
      var who := infos[0].miner;
      assert Bytes(Weigh(infos, Some(who))) <= Service(ms, who);
      var taken := ms[who := ms[who].(service := ms[who].service - FRAGMENT_SIZE)];
      forall a: Account ensures Bytes(Weigh(infos[1..], Some(a))) <= Service(taken, a) {
        assert Bytes(Weigh(infos, Some(a))) <= Service(ms, a);
      }
      TakeServiceSucceeds(taken, infos[1..]);
    }
  }

  /** Space can be taken for a record exactly when every miner has as much as the record places on it. */
  lemma TakeServiceIff(ms: Miners, infos: seq<FragmentInfo>)
    requires KnownInfos(infos, ms)
    ensures TakeService(ms, infos).Some? <==> forall a: Account :: Bytes(Weigh(infos, Some(a))) <= Service(ms, a)
  {
    if TakeService(ms, infos).Some? {
      forall a: Account ensures Bytes(Weigh(infos, Some(a))) <= Service(ms, a) {
        TakeServiceWeighs(ms, infos, a);
      }
    } else if forall a: Account :: Bytes(Weigh(infos, Some(a))) <= Service(ms, a) {
      TakeServiceSucceeds(ms, infos);
    }
  }

  /** What the other files and the strays leave a miner for the deals being finished. */
  ghost function Spare(s: State, es: seq<Event>, h: Hash, who: Account): int {
    Bytes(Stored(Run(s, es).files - {h}, Some(who))) + TotalStray(s, es, who) * 8_388_608
  }

  lemma SpareIsService(s: State, es: seq<Event>, h: Hash, who: Account)
    requires IsGenesis(s) && h in Run(s, es).files
    ensures Bytes(Weigh(AllInfos(Run(s, es).files[h].segments), Some(who))) <= Service(Run(s, es).miners, who)
       <==> Bytes(OpenLoad(Finishing(Run(s, es)), who)) <= Spare(s, es, h, who)
  {
    GenesisRun(s, es, who);
    StoredElsewhere(Run(s, es).files, h, Some(who));
  }

  /**
   * Deleting a file finds the service space of its miners exactly when, miner by miner, what the deals being finished
   * will still add is covered by what the other files place on it and by the strays.
   */
  lemma ServiceIsThereIff(s: State, es: seq<Event>, h: Hash)
    requires IsGenesis(s) && h in Run(s, es).files
    ensures var r := Run(s, es);
            TakeService(r.miners, AllInfos(r.files[h].segments)).Some?
            <==> forall a: Account :: Bytes(OpenLoad(Finishing(r), a)) <= Spare(s, es, h, a)
  {
    var r := Run(s, es);
    GenesisIsGood(s, h);
    RunKeeps(s, es, h);
    assert KnownInfos(AllInfos(r.files[h].segments), r.miners);
    TakeServiceIff(r.miners, AllInfos(r.files[h].segments));
    forall a: Account
      ensures Bytes(Weigh(AllInfos(r.files[h].segments), Some(a))) <= Service(r.miners, a)
         <==> Bytes(OpenLoad(Finishing(r), a)) <= Spare(s, es, h, a)
    {
      SpareIsService(s, es, h, a);
    }
  }

  lemma DeleteSingle(s: State, who: Account, h: Hash, bucket: bool)
    ensures Step(s, EvDelete(who, [h], bucket)) == if bucket then EmptyOne(s, h, who) else DeleteOne(s, h, who)
  {
    assert [h][1..] == [];
    var r := if bucket then EmptyOne(s, h, who) else DeleteOne(s, h, who);
    assert Delete(s, who, [h], bucket) == if r.None? then None else Delete(r.value, who, [], bucket);
  }

  /** No file still being finished has lost a fragment of a miner to restoral. */
  ghost predicate AsAssigned(s: State, who: Account) {
    forall h :: h in s.deals && h in s.files ==>
      Load(s.deals[h].tasks, who) <= Weigh(AllInfos(s.files[h].segments), Some(who))
  }

  lemma PendingFits(s: State, h: Hash, who: Account)
    requires AsAssigned(s, who) && h !in s.deals
    ensures OpenLoad(Finishing(s), who) <= Stored(s.files - {h}, Some(who))
  {
    MapSumBelow(LoadsBy(Finishing(s), who), Weights(s.files - {h}, Some(who)));
  }

  /** So it is there while strays cost no miner anything and restoral leaves files under calculation alone. */
  lemma ServiceIsThere(s: State, es: seq<Event>, h: Hash)
    requires IsGenesis(s) && h in Run(s, es).files && Run(s, es).files[h].active
    requires forall a: Account :: TotalStray(s, es, a) >= 0
    requires forall a: Account :: AsAssigned(Run(s, es), a)
    ensures forall a: Account :: Bytes(OpenLoad(Finishing(Run(s, es)), a)) <= Spare(s, es, h, a)
  {
    forall a: Account ensures Bytes(OpenLoad(Finishing(Run(s, es)), a)) <= Spare(s, es, h, a) {
      GenesisRun(s, es, a);
      assert SoundAt(Run(s, es), h, a);
      assert TotalStray(s, es, a) >= 0 && AsAssigned(Run(s, es), a);
      PendingFits(Run(s, es), h, a);
    }
  }
}

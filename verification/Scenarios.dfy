/** Runs from genesis in which the books come apart: what the laws of the deals name as exceptions does happen. */
module Scenarios {
  import opened Base
  import opened Allocation
  import opened Placement
  import opened Deals
  import opened StoredFiles
  import opened Ownership
  import US = UserSpace

  // ----- Running

  lemma {:induction false} RunInTwo(s: State, a: seq<Event>, b: seq<Event>)
    ensures Run(s, a + b) == Run(Run(s, a), b)
    decreases |a|
  {
    if a == [] {
      assert a + b == b;
    } else {
      RunInTwo(Next(s, a[0]), a[1..], b);
      assert (a + b)[1..] == a[1..] + b;
    }
  }

  lemma RunOne(s: State, e: Event)
    ensures Run(s, [e]) == Next(s, e)
  {
    assert [e][1..] == [];
  }

  lemma RunPair(s: State, d: Event, e: Event)
    ensures Run(s, [d, e]) == Next(Next(s, d), e)
  {
    assert [d, e][1..] == [e];
    RunOne(Next(s, d), e);
  }

  lemma RunTriple(s: State, c: Event, d: Event, e: Event)
    ensures Run(s, [c, d, e]) == Next(Next(Next(s, c), d), e)
  {
    assert [c, d, e][1..] == [d, e];
    RunPair(Next(s, c), d, e);
  }

  // ----- A file of one segment on one miner

  /** The only segment of file `h`. */
  function Only(h: Hash): Segment {
    Segment(h, [10 * h + 1, 10 * h + 2, 10 * h + 3])
  }

  lemma {:induction false} PlaceOnOne(t: seq<Hash>, cap: nat, fragments: seq<Hash>)
    requires |t| + |fragments| <= cap
    ensures PlaceSegment([t], [cap], fragments, 0) == Some([t + fragments])
    decreases |fragments|
  {
    if fragments == [] {
      assert t + fragments == t;
    } else {
      assert Push([t], 0, fragments[0]) == [t + [fragments[0]]];
      PlaceOnOne(t + [fragments[0]], cap, fragments[1..]);
      assert t + [fragments[0]] + fragments[1..] == t + fragments;
    }
  }

  lemma AssignedToOne(miner: Account, idle: nat, h: Hash)
    requires idle > Bytes(3)
    ensures Assigned([Only(h)], [Candidate(miner, idle)]) == Some([Task(miner, Only(h).fragments)])
  {
    var chosen, fragments := [Candidate(miner, idle)], Only(h).fragments;
    var caps := Capacities(Idles(chosen));
    CapacityIsLargest(idle, 3);
    assert caps == [Capacity(idle)] && Empty(1) == [[]] && [Only(h)][1..] == [];
    PlaceOnOne([], Capacity(idle), fragments);
    assert [] + fragments == fragments;
    assert PlaceAll([fragments], caps, []) == Some([fragments]);
    assert PlaceAll(Empty(1), caps, [Only(h)]) == Some([fragments]);
    assert TaskList(chosen, [fragments]) == [Task(miner, fragments)];
  }

  function AllOn(fragments: seq<Hash>, miner: Account): seq<FragmentInfo> {
    if fragments == [] then [] else [FragmentInfo(fragments[0], true, miner)] + AllOn(fragments[1..], miner)
  }

  lemma {:induction false} RecordOnOne(fragments: seq<Hash>, miner: Account, bag: multiset<Hash>, marked: seq<Account>)
    requires multiset(fragments) <= bag
    ensures Record(fragments, [Holder(miner, bag)], marked, false).infos == AllOn(fragments, miner)
    decreases |fragments|
  {
    if fragments != [] {
      var f, hs := fragments[0], [Holder(miner, bag)];
      assert fragments == [f] + fragments[1..];
      assert FindHolder(hs, f, marked, false) == Some(0);
      assert Take(hs, 0, f) == [Holder(miner, bag - multiset{f})];
      RecordOnOne(fragments[1..], miner, bag - multiset{f}, marked + [miner]);
    }
  }

  /** The record of file `h` when one miner stores it. */
  function RecordOf(h: Hash, miner: Account): seq<SegmentInfo> {
    [SegmentInfo(h, [FragmentInfo(10 * h + 1, true, miner), FragmentInfo(10 * h + 2, true, miner),
                     FragmentInfo(10 * h + 3, true, miner)])]
  }

  lemma ThreeOn(a: Hash, b: Hash, c: Hash, miner: Account)
    ensures AllOn([a, b, c], miner)
         == [FragmentInfo(a, true, miner), FragmentInfo(b, true, miner), FragmentInfo(c, true, miner)]
  {
    assert [a, b, c][1..] == [b, c] && [b, c][1..] == [c] && [c][1..] == [];
    assert AllOn([c], miner) == [FragmentInfo(c, true, miner)];
    assert AllOn([b, c], miner) == [FragmentInfo(b, true, miner)] + AllOn([c], miner);
  }

  lemma RecordedOnOne(segment: Segment, miner: Account)
    ensures FileOf([segment], [Task(miner, segment.fragments)], [])
         == [SegmentInfo(segment.hash, AllOn(segment.fragments, miner))]
  {
    var hs := [Holder(miner, multiset(segment.fragments))];
    assert Holders([Task(miner, segment.fragments)]) == hs;
    RecordOnOne(segment.fragments, miner, multiset(segment.fragments), []);
    var r := Record(segment.fragments, hs, [], false);
    assert MINER_COUNT == 3 && [segment][1..] == [];
    assert RecordFile([segment], hs, [], false)
        == [SegmentInfo(segment.hash, r.infos)] + RecordFile([], r.holders, [], false);
  }

  lemma FileOnOne(h: Hash, miner: Account)
    ensures FileOf([Only(h)], [Task(miner, Only(h).fragments)], []) == RecordOf(h, miner)
  {
    RecordedOnOne(Only(h), miner);
    ThreeOn(10 * h + 1, 10 * h + 2, 10 * h + 3, miner);
  }

  // ----- What each call does to such a file

  function Opened(h: Hash, user: Account, miner: Account): Deal {
    Deal([Only(h)], [Task(miner, Only(h).fragments)], user, [], 1, 0)
  }

  /** The deal once its miner has reported it. */
  function Reported(h: Hash, user: Account, miner: Account): Deal {
    Opened(h, user, miner).(complete := [miner], stage := 2)
  }

  function DeclareOn(s: State, h: Hash, user: Account, miner: Account): Event
    requires miner in s.miners
  {
    EvDeclare(user, h, [Only(h)], [Candidate(miner, s.miners[miner].idle)])
  }

  lemma OneIsValid(ms: Miners, miner: Account)
    requires miner in ms && ms[miner].positive && ms[miner].idle > Bytes(3)
    ensures ValidChoice(ms, 1, [Candidate(miner, ms[miner].idle)])
  {
    var chosen := [Candidate(miner, ms[miner].idle)];
    assert Idles(chosen) == [ms[miner].idle] && Idles(chosen)[1..] == [];
  }

  lemma MoveOne(ms: Miners, move: Move, h: Hash, miner: Account)
    ensures MoveAll(ms, move, [Task(miner, Only(h).fragments)]) == MoveSpace(ms, move, miner, Bytes(3))
  {
    assert [Task(miner, Only(h).fragments)][1..] == [];
  }

  /** The user and the miner have room for file `h`, and neither a file nor a scheduled call has its name. */
  predicate CanDeclare(s: State, h: Hash, user: Account, miner: Account) {
    && h !in s.files && h !in s.scheduled
    && user in s.users && !s.users[user].frozen && s.users[user].remaining > Bytes(3)
    && IsPositive(s, miner) && s.miners[miner].idle > Bytes(3)
  }

  function Declared(s: State, h: Hash, user: Account, miner: Account): State
    requires CanDeclare(s, h, user, miner)
  {
    var u, m := s.users[user], s.miners[miner];
    s.(users := s.users[user := u.(locked := u.locked + Bytes(3), remaining := u.remaining - Bytes(3))],
       miners := s.miners[miner := m.(locked := m.locked + Bytes(3), idle := m.idle - Bytes(3))],
       scheduled := s.scheduled[h := Reassign(1)],
       deals := s.deals[h := Opened(h, user, miner)])
  }

  lemma Declares(s: State, h: Hash, user: Account, miner: Account)
    requires CanDeclare(s, h, user, miner)
    ensures Next(s, DeclareOn(s, h, user, miner)) == Declared(s, h, user, miner)
  {
    NeededIsThree(1);
    OneIsValid(s.miners, miner);
    AssignedToOne(miner, s.miners[miner].idle, h);
    MoveOne(s.miners, Lock, h, miner);
  }

  /** Completing a deal, for the first time or again. */
  function Completed(s: State, h: Hash, user: Account, miner: Account): State
    requires user in s.users && s.users[user].locked >= Bytes(3) && s.totalIdle >= Bytes(3)
  {
    var u := s.users[user];
    s.(users := s.users[user := u.(locked := u.locked - Bytes(3), used := u.used + Bytes(3))],
       deals := s.deals[h := Reported(h, user, miner)],
       files := s.files[h := File(RecordOf(h, miner), [user], false)],
       scheduled := s.scheduled[h := Finish],
       totalIdle := s.totalIdle - Bytes(3),
       totalService := s.totalService + Bytes(3))
  }

  lemma Completes(s: State, h: Hash, user: Account, miner: Account, stage: nat)
    requires user in s.users && s.users[user].locked >= Bytes(3) && s.totalIdle >= Bytes(3)
    ensures CompleteDeal(s, h, Reported(h, user, miner).(stage := stage)) == Some(Completed(s, h, user, miner))
  {
    var deal := Reported(h, user, miner).(stage := stage);
    FileOnOne(h, miner);
    assert deal.(stage := 2) == Reported(h, user, miner);
    assert Needed(|deal.segments|) == Bytes(3);
  }

  lemma ReportsOne(s: State, h: Hash, user: Account, miner: Account)
    requires h in s.deals && (s.deals[h] == Opened(h, user, miner) || s.deals[h] == Reported(h, user, miner))
    requires user in s.users && s.users[user].locked >= Bytes(3) && s.totalIdle >= Bytes(3)
    ensures ReportOne(s, miner, h) == Some(Completed(s, h, user, miner))
    ensures IsLastReport(s, miner, h)
  {
    var deal := s.deals[h];
    assert deal.tasks[0].miner == miner;
    assert [] + [miner] == [miner];
    Completes(s, h, user, miner, deal.stage);
  }

  lemma ReportSingle(s: State, who: Account, h: Hash, a: Account)
    ensures Step(s, EvReport(who, [h])) == ReportOne(s, who, h)
    ensures ReportOne(s, who, h).Some? ==>
              && Again(s, EvReport(who, [h])) == Rewritten(s, who, h, None)
              && Stray(s, EvReport(who, [h]), a) == ReportOneStray(s, who, h, a)
  {
    assert [h][1..] == [];
    var r := ReportOne(s, who, h);
    assert Report(s, who, [h]) == if r.None? then None else Report(r.value, who, []);
    if r.Some? {
      assert ReportAgain(s, who, [h]) == Rewritten(s, who, h, None) + ReportAgain(r.value, who, []);
      assert ReportStray(s, who, [h], a) == ReportOneStray(s, who, h, a) + ReportStray(r.value, who, [], a);
    }
  }

  /** The only report of a deal completes it; a second one, while the deal is still there, completes it again. */
  lemma Reports(s: State, h: Hash, user: Account, miner: Account)
    requires h in s.deals && (s.deals[h] == Opened(h, user, miner) || s.deals[h] == Reported(h, user, miner))
    requires user in s.users && s.users[user].locked >= Bytes(3) && s.totalIdle >= Bytes(3)
    ensures Step(s, EvReport(miner, [h])) == Some(Completed(s, h, user, miner))
    ensures IsLastReport(s, miner, h)
  {
    ReportsOne(s, h, user, miner);
    ReportSingle(s, miner, h, miner);
  }

  /** The deal is over: its space is service space and the file active. */
  function Finished(s: State, h: Hash, miner: Account): State
    requires h in s.files && miner in s.miners && s.miners[miner].locked >= Bytes(3)
  {
    var m := s.miners[miner];
    s.(miners := s.miners[miner := m.(locked := m.locked - Bytes(3), service := m.service + Bytes(3))],
       files := s.files[h := s.files[h].(active := true)],
       deals := s.deals - {h},
       scheduled := s.scheduled - {h})
  }

  lemma Finishes(s: State, h: Hash, user: Account, miner: Account)
    requires h in s.deals && s.deals[h] == Reported(h, user, miner) && h in s.files
    requires h in s.scheduled && s.scheduled[h] == Finish
    requires miner in s.miners && s.miners[miner].locked >= Bytes(3)
    ensures Next(s, EvFire(h, [])) == Finished(s, h, miner)
  {
    MoveOne(s.miners, Serve, h, miner);
  }

  // ----- Two stages: a file under calculation, and a stored one

  /** File `h` has been declared and reported. */
  function Started(s: State, h: Hash, user: Account, miner: Account): State
    requires CanDeclare(s, h, user, miner) && s.totalIdle >= Bytes(3)
  {
    Completed(Declared(s, h, user, miner), h, user, miner)
  }

  lemma Starts(s: State, h: Hash, user: Account, miner: Account)
    requires CanDeclare(s, h, user, miner) && s.totalIdle >= Bytes(3)
    ensures Run(s, [DeclareOn(s, h, user, miner), EvReport(miner, [h])]) == Started(s, h, user, miner)
  {
    RunPair(s, DeclareOn(s, h, user, miner), EvReport(miner, [h]));
    Declares(s, h, user, miner);
    Reports(Declared(s, h, user, miner), h, user, miner);
  }

  lemma Stores(s: State, h: Hash, user: Account, miner: Account)
    requires CanDeclare(s, h, user, miner) && s.totalIdle >= Bytes(3)
    ensures Run(s, [DeclareOn(s, h, user, miner), EvReport(miner, [h]), EvFire(h, [])])
         == Finished(Started(s, h, user, miner), h, miner)
  {
    RunTriple(s, DeclareOn(s, h, user, miner), EvReport(miner, [h]), EvFire(h, []));
    Declares(s, h, user, miner);
    Reports(Declared(s, h, user, miner), h, user, miner);
    Finishes(Started(s, h, user, miner), h, user, miner);
  }

  // ----- The common beginning: one file is stored, another under calculation, both on one miner

  /** Who and what takes part: any accounts and names, as long as they differ. */
  datatype Cast = Cast(miner: Account, helper: Account, user: Account, owner: Account,
                       stored: Hash, pending: Hash, extra: Hash, fillers: seq<Hash>) {
    predicate Valid() {
      && miner != helper && user != owner
      && stored != pending && stored != extra && pending != extra
      && |fillers| == 10 && Distinct(fillers)
    }
  }

  function Fresh(): US.Space {
    US.Space(Bytes(100), 0, 0, Bytes(100), false)
  }

  function Arrivals(c: Cast): seq<Event> {
    [EvRegister(c.miner), EvRegister(c.helper), EvUploadFiller(c.miner, c.fillers)]
  }

  function Purchases(c: Cast): seq<Event> {
    [EvBuySpace(c.user, Bytes(100)), EvBuySpace(c.owner, Bytes(100))]
  }

  /** Two miners, one with ten fragments of idle space, and two users. */
  predicate Ready(s: State, c: Cast) {
    && s.miners == map[c.miner := Miner(true, Bytes(10), 0, 0)][c.helper := Miner(true, 0, 0, 0)]
    && s.users == map[c.user := Fresh()][c.owner := Fresh()]
    && s.deals == map[] && s.files == map[] && s.orders == map[] && s.scheduled == map[]
    && s.totalIdle == Bytes(10) && s.totalService == 0
  }

  lemma {:induction false} FillersAdd(fillers: set<(Account, Hash)>, who: Account, hashes: seq<Hash>)
    requires Distinct(hashes) && forall i :: 0 <= i < |hashes| ==> (who, hashes[i]) !in fillers
    ensures AddFillers(fillers, who, hashes).Some?
    decreases |hashes|
  {
    if hashes != [] {
      FillersAdd(fillers + {(who, hashes[0])}, who, hashes[1..]);
    }
  }

  lemma Arrive(g: State, c: Cast)
    requires IsGenesis(g) && c.Valid()
    ensures var s := Run(g, Arrivals(c));
            && s == g.(miners := map[c.miner := Miner(true, Bytes(10), 0, 0)][c.helper := Miner(true, 0, 0, 0)],
                       fillers := s.fillers, totalIdle := Bytes(10))
  {
    RunTriple(g, EvRegister(c.miner), EvRegister(c.helper), EvUploadFiller(c.miner, c.fillers));
    var s := Next(Next(g, EvRegister(c.miner)), EvRegister(c.helper));
    FillersAdd(s.fillers, c.miner, c.fillers);
    assert s.miners[c.miner := Miner(true, Bytes(10), 0, 0)]
        == map[c.miner := Miner(true, Bytes(10), 0, 0)][c.helper := Miner(true, 0, 0, 0)];
  }

  lemma Buy(s: State, c: Cast)
    requires s.users == map[] && c.Valid()
    ensures Run(s, Purchases(c)) == s.(users := map[c.user := Fresh()][c.owner := Fresh()])
  {
    var first := s.(users := map[c.user := Fresh()]);
    RunPair(s, EvBuySpace(c.user, Bytes(100)), EvBuySpace(c.owner, Bytes(100)));
    assert Next(s, EvBuySpace(c.user, Bytes(100))) == first;
  }

  lemma Begins(g: State, c: Cast)
    requires IsGenesis(g) && c.Valid()
    ensures Ready(Run(g, Arrivals(c) + Purchases(c)), c)
  {
    RunInTwo(g, Arrivals(c), Purchases(c));
    Arrive(g, c);
    Buy(Run(g, Arrivals(c)), c);
  }

  /** The owner's file is stored, then the user's is declared and reported. */
  function OneFile(c: Cast): seq<Event> {
    [EvDeclare(c.owner, c.stored, [Only(c.stored)], [Candidate(c.miner, Bytes(10))]),
     EvReport(c.miner, [c.stored]), EvFire(c.stored, [])]
  }

  function TwoFiles(c: Cast): seq<Event> {
    OneFile(c)
    + [EvDeclare(c.user, c.pending, [Only(c.pending)], [Candidate(c.miner, Bytes(7))]), EvReport(c.miner, [c.pending])]
  }

  /** What the books say then. */
  predicate HalfWay(s: State, c: Cast) {
    && c.miner in s.miners && s.miners[c.miner] == Miner(true, Bytes(4), Bytes(3), Bytes(3))
    && c.helper in s.miners && s.miners[c.helper] == Miner(true, 0, 0, 0)
    && c.user in s.users && s.users[c.user] == US.Space(Bytes(100), Bytes(3), 0, Bytes(97), false)
    && c.owner in s.users && s.users[c.owner] == US.Space(Bytes(100), Bytes(3), 0, Bytes(97), false)
    && s.deals == map[c.pending := Reported(c.pending, c.user, c.miner)]
    && s.scheduled == map[c.pending := Finish] && s.orders == map[]
    && s.files == map[c.stored := File(RecordOf(c.stored, c.miner), [c.owner], true)]
                     [c.pending := File(RecordOf(c.pending, c.miner), [c.user], false)]
    && s.totalIdle == Bytes(4) && s.totalService == Bytes(6)
  }

  predicate OneStored(s: State, c: Cast) {
    && c.miner in s.miners && s.miners[c.miner] == Miner(true, Bytes(7), 0, Bytes(3))
    && c.helper in s.miners && s.miners[c.helper] == Miner(true, 0, 0, 0)
    && c.user in s.users && s.users[c.user] == Fresh()
    && c.owner in s.users && s.users[c.owner] == US.Space(Bytes(100), Bytes(3), 0, Bytes(97), false)
    && s.deals == map[] && s.scheduled == map[] && s.orders == map[]
    && s.files == map[c.stored := File(RecordOf(c.stored, c.miner), [c.owner], true)]
    && s.totalIdle == Bytes(7) && s.totalService == Bytes(3)
  }

  lemma StoresOne(s: State, c: Cast)
    requires Ready(s, c) && c.Valid()
    ensures CanDeclare(s, c.stored, c.owner, c.miner)
    ensures OneStored(Finished(Started(s, c.stored, c.owner, c.miner), c.stored, c.miner), c)
  {
    var r := Finished(Started(s, c.stored, c.owner, c.miner), c.stored, c.miner);
    assert r.deals == map[] && r.scheduled == map[];
  }

  lemma StartsOther(s: State, c: Cast)
    requires OneStored(s, c) && c.Valid()
    ensures CanDeclare(s, c.pending, c.user, c.miner)
    ensures HalfWay(Started(s, c.pending, c.user, c.miner), c)
  {
    var r := Started(s, c.pending, c.user, c.miner);
    assert r.deals == map[c.pending := Reported(c.pending, c.user, c.miner)];
    assert r.scheduled == map[c.pending := Finish];
  }

  lemma StoresFile(g: State, c: Cast)
    requires IsGenesis(g) && c.Valid()
    ensures OneStored(Run(g, Arrivals(c) + Purchases(c) + OneFile(c)), c)
  {
    var s := Run(g, Arrivals(c) + Purchases(c));
    Begins(g, c);
    RunInTwo(g, Arrivals(c) + Purchases(c), OneFile(c));
    StoresOne(s, c);
    Stores(s, c.stored, c.owner, c.miner);
  }

  lemma GoesHalfWay(g: State, c: Cast)
    requires IsGenesis(g) && c.Valid()
    ensures HalfWay(Run(g, Arrivals(c) + Purchases(c) + TwoFiles(c)), c)
  {
    var before, one := Arrivals(c) + Purchases(c), OneFile(c);
    var s := Run(g, before + one);
    StoresFile(g, c);
    StartsOther(s, c);
    Starts(s, c.pending, c.user, c.miner);
    var two := [DeclareOn(s, c.pending, c.user, c.miner), EvReport(c.miner, [c.pending])];
    RunInTwo(g, before + one, two);
    assert before + one + two == before + TwoFiles(c);
  }

  // ----- Deleting a stored file

  lemma {:induction false} TakesFrom(ms: Miners, miner: Account, infos: seq<FragmentInfo>)
    requires miner in ms && forall i :: 0 <= i < |infos| ==> infos[i].miner == miner
    ensures TakeService(ms, infos)
         == if Bytes(|infos|) <= ms[miner].service
            then Some(ms[miner := ms[miner].(service := ms[miner].service - Bytes(|infos|))]) else None
    decreases |infos|
  {
    if infos == [] {
      assert ms[miner := ms[miner]] == ms;
    } else if ms[miner].service >= FRAGMENT_SIZE {
      var m := ms[miner].(service := ms[miner].service - FRAGMENT_SIZE);
      TakesFrom(ms[miner := m], miner, infos[1..]);
      if m.service >= Bytes(|infos| - 1) {
        var left := m.(service := m.service - Bytes(|infos| - 1));
        assert ms[miner := m][miner := left] == ms[miner := left];
      }
    }
  }

  lemma TakesRecord(ms: Miners, h: Hash, miner: Account)
    requires miner in ms
    ensures |AllInfos(RecordOf(h, miner))| == 3
    ensures TakeService(ms, AllInfos(RecordOf(h, miner)))
         == if Bytes(3) <= ms[miner].service
            then Some(ms[miner := ms[miner].(service := ms[miner].service - Bytes(3))]) else None
  {
    var record := RecordOf(h, miner);
    assert record[1..] == [];
    assert AllInfos(record) == record[0].fragments;
    TakesFrom(ms, miner, record[0].fragments);
  }

  /** A stored file whose miner lacks the service space cannot be deleted. */
  lemma DeletionFails(s: State, h: Hash, owner: Account, miner: Account)
    requires h in s.files && s.files[h] == File(RecordOf(h, miner), [owner], true)
    requires miner in s.miners && s.miners[miner].service < Bytes(3)
    ensures Step(s, EvDelete(owner, [h], false)).None?
    ensures TakeService(s.miners, AllInfos(s.files[h].segments)).None?
  {
    DeleteSingle(s, owner, h, false);
    TakesRecord(s.miners, h, miner);
  }

  // ----- Emptying a bucket strands space

  function Emptying(c: Cast): Event {
    EvDelete(c.user, [c.pending], true)
  }

  lemma Empties(s: State, c: Cast)
    requires HalfWay(s, c) && c.Valid()
    ensures var r := Step(s, Emptying(c));
            && r.Some?
            && c.miner in r.value.miners && r.value.miners[c.miner] == Miner(true, Bytes(4), Bytes(3), 0)
            && r.value.files == map[c.stored := File(RecordOf(c.stored, c.miner), [c.owner], true)]
  {
    DeleteSingle(s, c.user, c.pending, true);
    TakesRecord(s.miners, c.pending, c.miner);
    assert s.files - {c.pending} == map[c.stored := File(RecordOf(c.stored, c.miner), [c.owner], true)];
  }

  /**
   * Emptying a bucket can strand space. A miner stores one file and has reported another, whose space is still locked.
   * When the bucket with the second file is emptied, the service space behind the first one goes, and from then on
   * its owner cannot delete it.
   */
  lemma EmptyingCanStrand(g: State, c: Cast)
    requires IsGenesis(g) && c.Valid()
    ensures var r := Run(g, Arrivals(c) + Purchases(c) + TwoFiles(c) + [Emptying(c)]);
            && c.stored in r.files && r.files[c.stored].active && r.files[c.stored].owners == [c.owner]
            && Service(r.miners, c.miner) == 0 && Weigh(AllInfos(r.files[c.stored].segments), Some(c.miner)) == 3
            && Step(r, EvDelete(c.owner, [c.stored], false)).None?
  {
    var es := Arrivals(c) + Purchases(c) + TwoFiles(c);
    var s := Run(g, es);
    GoesHalfWay(g, c);
    RunInTwo(g, es, [Emptying(c)]);
    RunOne(s, Emptying(c));
    Empties(s, c);
    DeletionFails(Next(s, Emptying(c)), c.stored, c.owner, c.miner);
    RecordWeighs(c.stored, c.miner);
  }

  lemma RecordWeighs(h: Hash, miner: Account)
    ensures Weigh(AllInfos(RecordOf(h, miner)), Some(miner)) == 3
    ensures Weigh(AllInfos(RecordOf(h, miner)), None) == 3
  {
    var infos := RecordOf(h, miner)[0].fragments;
    assert RecordOf(h, miner)[1..] == [];
    assert AllInfos(RecordOf(h, miner)) == infos;
    WeighAll(infos);
    AllWeigh(infos, miner);
  }

  lemma {:induction false} AllWeigh(infos: seq<FragmentInfo>, miner: Account)
    requires forall i :: 0 <= i < |infos| ==> infos[i].miner == miner
    ensures Weigh(infos, Some(miner)) == |infos|
  {
    if infos != [] {
      AllWeigh(infos[1..], miner);
    }
  }

  // ----- Reporting again counts again

  /** With a third file declared, the user has locked space for a second completion of the pending one. */
  function Third(c: Cast): Event {
    EvDeclare(c.user, c.extra, [Only(c.extra)], [Candidate(c.miner, Bytes(4))])
  }

  lemma OpensThird(s: State, c: Cast)
    requires HalfWay(s, c) && c.Valid()
    ensures CanDeclare(s, c.extra, c.user, c.miner) && Next(s, Third(c)) == Declared(s, c.extra, c.user, c.miner)
  {
    Declares(s, c.extra, c.user, c.miner);
  }

  /**
   * A report can complete a deal again: with another deal of the user open, the report of a file under calculation
   * succeeds a second time, and the network counts the file's three fragments again.
   */
  lemma ReportingCountsAgain(g: State, c: Cast)
    requires IsGenesis(g) && c.Valid()
    ensures var s := Run(g, Arrivals(c) + Purchases(c) + TwoFiles(c) + [Third(c)]);
            var e := EvReport(c.miner, [c.pending]);
            && Step(s, e).Some? && Again(s, e) == 3
            && Step(s, e).value.totalService == s.totalService + Bytes(3)
            && Step(s, e).value.files == s.files
  {
    var es := Arrivals(c) + Purchases(c) + TwoFiles(c);
    var s := Run(g, es);
    GoesHalfWay(g, c);
    RunInTwo(g, es, [Third(c)]);
    RunOne(s, Third(c));
    OpensThird(s, c);
    var s' := Declared(s, c.extra, c.user, c.miner);
    Reports(s', c.pending, c.user, c.miner);
    ReportSingle(s', c.miner, c.pending, c.miner);
    RecordWeighs(c.pending, c.miner);
  }

  /**
   * The second completion takes the locked space of the other deal, which then can neither be completed by its only
   * report nor ended after the last round.
   */
  lemma ReportingStarves(g: State, c: Cast)
    requires IsGenesis(g) && c.Valid()
    ensures var r := Run(g, Arrivals(c) + Purchases(c) + TwoFiles(c) + [Third(c), EvReport(c.miner, [c.pending])]);
            && c.extra in r.deals && r.deals[c.extra].stage == 1
            && Step(r, EvReport(c.miner, [c.extra])).None?
            && forall count, chosen :: count >= MAX_REASSIGN ==> ReassignDeal(r, c.extra, count, chosen).None?
  {
    var es := Arrivals(c) + Purchases(c) + TwoFiles(c);
    var s, e := Run(g, es), EvReport(c.miner, [c.pending]);
    GoesHalfWay(g, c);
    RunInTwo(g, es, [Third(c), e]);
    RunPair(s, Third(c), e);
    OpensThird(s, c);
    var s' := Declared(s, c.extra, c.user, c.miner);
    Reports(s', c.pending, c.user, c.miner);
    var r := Completed(s', c.pending, c.user, c.miner);
    assert r.deals[c.extra] == Opened(c.extra, c.user, c.miner) && r.users[c.user].locked == 0;
    ReportSingle(r, c.miner, c.extra, c.miner);
  }

  // ----- Joining a stored file

  /** Nothing compares what a joining user declares with the file. */
  function Joining(c: Cast): Event {
    EvDeclare(c.user, c.stored, [], [])
  }

  function Leaving(c: Cast): Event {
    EvDelete(c.owner, [c.stored], false)
  }

  /** The stored file has these owners; the user has used nothing for it. */
  predicate Joined(s: State, c: Cast, owners: seq<Account>) {
    && c.stored in s.files && s.files[c.stored] == File(RecordOf(c.stored, c.miner), owners, true)
    && c.user in s.users && s.users[c.user].used == 0
    && c.miner in s.miners && s.miners[c.miner].service == Bytes(3)
  }

  lemma Joins(s: State, c: Cast)
    requires OneStored(s, c) && c.Valid()
    ensures Joined(Next(s, Joining(c)), c, [c.owner, c.user])
    ensures c.owner in Next(s, Joining(c)).users && Next(s, Joining(c)).users[c.owner] == s.users[c.owner]
  {
    assert [c.owner] + [c.user] == [c.owner, c.user];
    assert Step(s, Joining(c)).Some?;
  }

  lemma Leaves(s: State, c: Cast)
    requires Joined(s, c, [c.owner, c.user]) && c.Valid()
    requires c.owner in s.users && s.users[c.owner].used == Bytes(3) <= s.users[c.owner].total
    ensures Joined(Next(s, Leaving(c)), c, [c.user])
  {
    var owners := [c.owner, c.user];
    DeleteSingle(s, c.owner, c.stored, false);
    assert owners[1..] == [c.user] && owners[1..][1..] == [];
    var left := RemoveOwner(s, c.stored, c.owner).value;
    assert RemoveOwners(s, c.stored, c.owner, owners) == RemoveOwners(left, c.stored, c.owner, [c.user]) == Some(left);
  }

  /** Whoever has used nothing cannot leave a file that has a size. */
  lemma CannotLeave(s: State, c: Cast, owners: seq<Account>)
    requires Joined(s, c, owners) && c.user in owners
    ensures RemoveOwner(s, c.stored, c.user).None? && Step(s, EvDelete(c.user, [c.stored], false)).None?
    ensures TakeService(s.miners, AllInfos(s.files[c.stored].segments)).Some?
  {
    DeleteSingle(s, c.user, c.stored, false);
    TakesRecord(s.miners, c.stored, c.miner);
    NeededIsThree(1);
    RemoveOwnersIff(s, c.stored, c.user, owners);
    ChargeOutsider(owners, c.user, Needed(1));
    if |owners| == 1 {
      assert owners == [c.user];
    }
  }

  /**
   * Joining with nothing declared locks the user in. The user cannot leave again, and when the owner leaves, the file
   * cannot be deleted by anybody, although its miner has the service space.
   */
  lemma JoiningLocksIn(g: State, c: Cast)
    requires IsGenesis(g) && c.Valid()
    ensures var es := Arrivals(c) + Purchases(c) + OneFile(c);
            var s, r := Run(g, es + [Joining(c)]), Run(g, es + [Joining(c), Leaving(c)]);
            && Joined(s, c, [c.owner, c.user]) && RemoveOwner(s, c.stored, c.user).None?
            && Joined(r, c, [c.user]) && TakeService(r.miners, AllInfos(r.files[c.stored].segments)).Some?
            && Step(r, EvDelete(c.user, [c.stored], false)).None?
  {
    var es := Arrivals(c) + Purchases(c) + OneFile(c);
    var s := Run(g, es);
    StoresFile(g, c);
    RunInTwo(g, es, [Joining(c)]);
    RunOne(s, Joining(c));
    RunInTwo(g, es, [Joining(c), Leaving(c)]);
    RunPair(s, Joining(c), Leaving(c));
    Joins(s, c);
    CannotLeave(Next(s, Joining(c)), c, [c.owner, c.user]);
    Leaves(Next(s, Joining(c)), c);
    CannotLeave(Next(Next(s, Joining(c)), Leaving(c)), c, [c.user]);
  }

  /** The owner of another file joins the one under calculation, as declared. */
  function CoOwning(c: Cast): Event {
    EvDeclare(c.owner, c.pending, [Only(c.pending)], [])
  }

  lemma CoOwns(s: State, c: Cast)
    requires HalfWay(s, c) && c.Valid()
    ensures var s' := Next(Next(s, Third(c)), CoOwning(c));
            && c.pending in s'.deals && s'.deals[c.pending] == Reported(c.pending, c.user, c.miner)
            && c.pending in s'.files
            && s'.files[c.pending] == File(RecordOf(c.pending, c.miner), [c.user, c.owner], false)
            && c.user in s'.users && s'.users[c.user].locked >= Bytes(3) && s'.totalIdle >= Bytes(3)
            && c.owner in s'.users && s'.users[c.owner].used == Bytes(6) <= s'.users[c.owner].total
            && c.miner in s'.miners && s'.miners[c.miner].service == Bytes(3) <= s'.totalService
  {
    OpensThird(s, c);
    assert [c.user] + [c.owner] == [c.user, c.owner];
    assert Step(Next(s, Third(c)), CoOwning(c)).Some?;
  }

  /**
   * A repeated report drops co-owners: the user of the deal becomes the only owner again, and what the others have used
   * for the file stays charged.
   */
  lemma ReportingDispossesses(g: State, c: Cast)
    requires IsGenesis(g) && c.Valid()
    ensures var s := Run(g, Arrivals(c) + Purchases(c) + TwoFiles(c) + [Third(c), CoOwning(c)]);
            var e := EvReport(c.miner, [c.pending]);
            && c.pending in s.files && s.files[c.pending].owners == [c.user, c.owner]
            && Step(s, e).Some? && c.pending in Next(s, e).files && Next(s, e).files[c.pending].owners == [c.user]
            && UserUsed(Next(s, e), c.owner) == UserUsed(s, c.owner) == Bytes(6)
            && Mistitled(s, e, c.owner) == Bytes(3)
  {
    var es := Arrivals(c) + Purchases(c) + TwoFiles(c);
    GoesHalfWay(g, c);
    RunInTwo(g, es, [Third(c), CoOwning(c)]);
    RunPair(Run(g, es), Third(c), CoOwning(c));
    CoOwns(Run(g, es), c);
    var s := Run(g, es + [Third(c), CoOwning(c)]);
    Reports(s, c.pending, c.user, c.miner);
    DispossessedBy(s, c);
  }

  lemma DispossessedBy(s: State, c: Cast)
    requires c.Valid() && c.pending in s.files && IsLastReport(s, c.miner, c.pending)
    requires s.files[c.pending] == File(RecordOf(c.pending, c.miner), [c.user, c.owner], false)
    ensures ReportDispossessed(s, c.miner, [c.pending], c.owner)
         == if ReportOne(s, c.miner, c.pending).Some? then Bytes(3) else 0
  {
    var owners := [c.user, c.owner];
    assert [c.pending][1..] == [] && owners[1..] == [c.owner] && [c.owner][1..] == [];
    assert Charge([c.owner], c.owner, Needed(1)) == Needed(1);
    assert Charge(owners, c.owner, Needed(1)) == Needed(1);
  }

  lemma MiscreditsSingle(s: State, owner: Account, h: Hash, who: Account)
    requires EmptyOne(s, h, owner).Some?
    ensures DeleteMiscredits(s, owner, [h], true, who) == EmptyOneMiscredits(s, h, owner, who)
  {
    var rest := [h][1..];
    assert rest == [];
    assert DeleteMiscredits(EmptyOne(s, h, owner).value, owner, rest, true, who) == 0;
  }

  lemma Miscredits(r: State, c: Cast)
    requires c.Valid() && c.pending in r.files
    requires r.files[c.pending] == File(RecordOf(c.pending, c.miner), [c.user], false)
    requires c.owner in r.users && r.users[c.owner].used == Bytes(6) <= r.users[c.owner].total
    requires c.miner in r.miners && r.miners[c.miner].service >= Bytes(3) && r.totalService >= Bytes(3)
    ensures var e := EvDelete(c.owner, [c.pending], true);
            && Step(r, e).Some? && c.pending !in Next(r, e).files
            && UserUsed(Next(r, e), c.owner) == Bytes(3) && UserUsed(Next(r, e), c.user) == UserUsed(r, c.user)
            && Mistitled(r, e, c.owner) == 0 - Bytes(3) && Mistitled(r, e, c.user) == Bytes(3)
  {
    DeleteSingle(r, c.owner, c.pending, true);
    TakesRecord(r.miners, c.pending, c.miner);
    NeededIsThree(1);
    MiscreditsSingle(r, c.owner, c.pending, c.owner);
    MiscreditsSingle(r, c.owner, c.pending, c.user);
    ChargeOne([c.user], c.owner, Needed(1));
    ChargeOne([c.user], c.user, Needed(1));
  }

  /**
   * Emptying a bucket does not ask whose the file is: a co-owner dropped by a repeated report empties the bucket that
   * still lists the file, is credited for it, and the file is gone for its owner, who stays charged.
   */
  lemma EmptyingMiscredits(g: State, c: Cast)
    requires IsGenesis(g) && c.Valid()
    ensures var report := EvReport(c.miner, [c.pending]);
            var r := Run(g, Arrivals(c) + Purchases(c) + TwoFiles(c) + [Third(c), CoOwning(c), report]);
            var e := EvDelete(c.owner, [c.pending], true);
            && c.pending in r.files && r.files[c.pending].owners == [c.user]
            && Step(r, e).Some? && c.pending !in Next(r, e).files
            && UserUsed(Next(r, e), c.owner) < UserUsed(r, c.owner)
            && UserUsed(Next(r, e), c.user) == UserUsed(r, c.user)
            && Mistitled(r, e, c.owner) == 0 - Bytes(3) && Mistitled(r, e, c.user) == Bytes(3)
  {
    var es, report := Arrivals(c) + Purchases(c) + TwoFiles(c), EvReport(c.miner, [c.pending]);
    GoesHalfWay(g, c);
    RunInTwo(g, es, [Third(c), CoOwning(c), report]);
    RunTriple(Run(g, es), Third(c), CoOwning(c), report);
    CoOwns(Run(g, es), c);
    var s := Next(Next(Run(g, es), Third(c)), CoOwning(c));
    Reports(s, c.pending, c.user, c.miner);
    Miscredits(Next(s, report), c);
  }

  // ----- Restoring a fragment of a file under calculation

  function Lost(c: Cast): Hash {
    10 * c.pending + 1
  }

  /** The pending file's record with its first entry as given. */
  function RecordWith(c: Cast, info: FragmentInfo): seq<SegmentInfo> {
    [SegmentInfo(c.pending, [info, FragmentInfo(10 * c.pending + 2, true, c.miner),
                             FragmentInfo(10 * c.pending + 3, true, c.miner)])]
  }

  function Pending(c: Cast, info: FragmentInfo): File {
    File(RecordWith(c, info), [c.user], false)
  }

  lemma RewritesFirst(c: Cast, was: FragmentInfo, info: FragmentInfo)
    requires was.hash == Lost(c)
    ensures RewriteFile(RecordWith(c, was), Lost(c), was.miner, info) == Some(RecordWith(c, info))
  {
    var segments := RecordWith(c, was);
    var infos := segments[0].fragments;
    assert [info] + infos[1..] == RecordWith(c, info)[0].fragments;
    assert Rewrite(infos, Lost(c), was.miner, info) == Some([info] + infos[1..]);
    assert [segments[0].(fragments := [info] + infos[1..])] + segments[1..] == RecordWith(c, info);
  }

  /** The miner gives up a fragment of the pending file and the helper restores it. */
  function Restoring(c: Cast): seq<Event> {
    [EvGenerateOrder(c.miner, c.pending, Lost(c)), EvClaimOrder(c.helper, Lost(c), 1, 10),
     EvCompleteOrder(c.helper, Lost(c), 2)]
  }

  predicate Restored(s: State, c: Cast) {
    && c.miner in s.miners && s.miners[c.miner] == Miner(true, Bytes(4), Bytes(3), Bytes(2))
    && c.helper in s.miners && s.miners[c.helper] == Miner(true, 0, 0, Bytes(1))
    && c.user in s.users && s.users[c.user] == US.Space(Bytes(100), Bytes(3), 0, Bytes(97), false)
    && s.deals == map[c.pending := Reported(c.pending, c.user, c.miner)]
    && s.scheduled == map[c.pending := Finish]
    && s.files == map[c.stored := File(RecordOf(c.stored, c.miner), [c.owner], true)]
                     [c.pending := Pending(c, FragmentInfo(Lost(c), true, c.helper))]
    && s.totalIdle == Bytes(4)
  }

  lemma Generates(s: State, c: Cast)
    requires HalfWay(s, c) && c.Valid()
    ensures Next(s, EvGenerateOrder(c.miner, c.pending, Lost(c)))
         == s.(files := s.files[c.pending := Pending(c, FragmentInfo(Lost(c), false, c.miner))],
               orders := map[Lost(c) := Order(c.pending, c.miner, c.miner, 0)])
  {
    RewritesFirst(c, FragmentInfo(Lost(c), true, c.miner), FragmentInfo(Lost(c), false, c.miner));
    assert RecordOf(c.pending, c.miner) == RecordWith(c, FragmentInfo(Lost(c), true, c.miner));
  }

  lemma CompletesOrder(s: State, c: Cast)
    requires c.Valid() && c.pending in s.files && c.helper in s.miners && c.miner in s.miners
    requires s.files[c.pending] == Pending(c, FragmentInfo(Lost(c), false, c.miner))
    requires s.orders == map[Lost(c) := Order(c.pending, c.miner, c.helper, 11)]
    requires s.miners[c.miner] == Miner(true, Bytes(4), Bytes(3), Bytes(3))
    requires s.miners[c.helper] == Miner(true, 0, 0, 0)
    ensures Next(s, EvCompleteOrder(c.helper, Lost(c), 2))
         == s.(files := s.files[c.pending := Pending(c, FragmentInfo(Lost(c), true, c.helper))],
               miners := s.miners[c.miner := Miner(true, Bytes(4), Bytes(3), Bytes(2))]
                                 [c.helper := Miner(true, 0, 0, Bytes(1))],
               orders := s.orders - {Lost(c)})
  {
    RewritesFirst(c, FragmentInfo(Lost(c), false, c.miner), FragmentInfo(Lost(c), true, c.helper));
    TakesFrom(s.miners, c.miner, [FragmentInfo(Lost(c), true, c.miner)]);
  }

  lemma Restores(s: State, c: Cast)
    requires HalfWay(s, c) && c.Valid()
    ensures Restored(Run(s, Restoring(c)), c)
  {
    var generate, claim := EvGenerateOrder(c.miner, c.pending, Lost(c)), EvClaimOrder(c.helper, Lost(c), 1, 10);
    RunTriple(s, generate, claim, EvCompleteOrder(c.helper, Lost(c), 2));
    Generates(s, c);
    var s' := Next(s, generate);
    assert Next(s', claim) == s'.(orders := map[Lost(c) := Order(c.pending, c.miner, c.helper, 11)]);
    CompletesOrder(Next(s', claim), c);
  }

  /**
   * Restoral can make a deletion underflow: service space is taken from the miner for a fragment whose space is still
   * locked, and is then missing for the file it has stored.
   */
  lemma RestoringCanUnderflow(g: State, c: Cast)
    requires IsGenesis(g) && c.Valid()
    ensures var r := Run(g, Arrivals(c) + Purchases(c) + TwoFiles(c) + Restoring(c));
            && c.stored in r.files && r.files[c.stored].active
            && TakeService(r.miners, AllInfos(r.files[c.stored].segments)).None?
            && Step(r, EvDelete(c.owner, [c.stored], false)).None?
  {
    var es := Arrivals(c) + Purchases(c) + TwoFiles(c);
    GoesHalfWay(g, c);
    RunInTwo(g, es, Restoring(c));
    Restores(Run(g, es), c);
    DeletionFails(Run(g, es + Restoring(c)), c.stored, c.owner, c.miner);
  }

  /** And reporting the restored file again moves the record back: the helper's service space backs nothing. */
  lemma ReportingStrays(g: State, c: Cast)
    requires IsGenesis(g) && c.Valid()
    ensures var s := Run(g, Arrivals(c) + Purchases(c) + TwoFiles(c) + Restoring(c) + [Third(c)]);
            var e := EvReport(c.miner, [c.pending]);
            Step(s, e).Some? && Stray(s, e, c.helper) == 1 && Stray(s, e, c.miner) == -1
  {
    var es := Arrivals(c) + Purchases(c) + TwoFiles(c);
    var s := Run(g, es + Restoring(c));
    GoesHalfWay(g, c);
    RunInTwo(g, es, Restoring(c));
    Restores(Run(g, es), c);
    RunInTwo(g, es + Restoring(c), [Third(c)]);
    RunOne(s, Third(c));
    Declares(s, c.extra, c.user, c.miner);
    var s' := Declared(s, c.extra, c.user, c.miner);
    Reports(s', c.pending, c.user, c.miner);
    ReportSingle(s', c.miner, c.pending, c.helper);
    ReportSingle(s', c.miner, c.pending, c.miner);
    RestoredWeighs(c);
  }

  lemma RestoredWeighs(c: Cast)
    requires c.Valid()
    ensures var infos := AllInfos(RecordWith(c, FragmentInfo(Lost(c), true, c.helper)));
            Weigh(infos, Some(c.helper)) == 1 && Weigh(infos, Some(c.miner)) == 2
    ensures var tasks := [Task(c.miner, Only(c.pending).fragments)];
            Load(tasks, c.helper) == 0 && Load(tasks, c.miner) == 3
  {
    var record := RecordWith(c, FragmentInfo(Lost(c), true, c.helper));
    var infos := record[0].fragments;
    assert record[1..] == [] && AllInfos(record) == infos;
    assert infos[1..] == [infos[1], infos[2]] && infos[1..][1..] == [infos[2]] && infos[1..][1..][1..] == [];
    assert Weigh([infos[2]], Some(c.helper)) == 0 && Weigh([infos[2]], Some(c.miner)) == 1;
    assert [Task(c.miner, Only(c.pending).fragments)][1..] == [];
  }

  // ----- Declaring again abandons space

  /** The miner is suspended when the deadline of its deal falls due, so no new miner is found for it. */
  function Expiring(c: Cast): seq<Event> {
    [EvDeclare(c.user, c.pending, [Only(c.pending)], [Candidate(c.miner, Bytes(10))]), EvSetState(c.miner, false),
     EvFire(c.pending, [])]
  }

  function Redeclaring(c: Cast): seq<Event> {
    [EvSetState(c.miner, true), EvDeclare(c.user, c.pending, [Only(c.pending)], [Candidate(c.miner, Bytes(7))])]
  }

  /** Declared, then forgotten by the scheduler. */
  function Overdue(s: State, c: Cast): State
    requires CanDeclare(s, c.pending, c.user, c.miner)
  {
    var d := Declared(s, c.pending, c.user, c.miner);
    d.(miners := d.miners[c.miner := d.miners[c.miner].(positive := false)], scheduled := d.scheduled - {c.pending})
  }

  lemma NobodyFits(s: State, c: Cast, chosen: seq<Candidate>)
    requires Ready(s, c) && c.Valid()
    ensures var d := Declared(s, c.pending, c.user, c.miner);
            var suspended := d.(miners := d.miners[c.miner := d.miners[c.miner].(positive := false)]);
            Next(suspended, EvFire(c.pending, chosen)) == Overdue(s, c)
  {
    var d := Declared(s, c.pending, c.user, c.miner);
    var suspended := d.(miners := d.miners[c.miner := d.miners[c.miner].(positive := false)]);
    MoveOne(suspended.miners, Unlock, c.pending, c.miner);
    var freed := MoveSpace(suspended.miners, Unlock, c.miner, Bytes(3)).value;
    assert freed.Keys == {c.miner, c.helper};
    assert !ValidChoice(freed, 1, chosen) by {
      if 0 < |chosen| && chosen[0].miner in freed {
        assert chosen[0].miner == c.miner || chosen[0].miner == c.helper;
      }
    }
  }

  lemma Expires(s: State, c: Cast)
    requires Ready(s, c) && c.Valid()
    ensures Run(s, Expiring(c)) == Overdue(s, c)
  {
    var declare := EvDeclare(c.user, c.pending, [Only(c.pending)], [Candidate(c.miner, Bytes(10))]);
    RunTriple(s, declare, EvSetState(c.miner, false), EvFire(c.pending, []));
    Declares(s, c.pending, c.user, c.miner);
    NobodyFits(s, c, []);
  }

  lemma Redeclares(s: State, c: Cast)
    requires Ready(s, c) && c.Valid()
    ensures var r := Run(Overdue(s, c), Redeclaring(c));
            && Locked(r.miners, c.miner) == Bytes(6)
            && r.deals == map[c.pending := Opened(c.pending, c.user, c.miner)]
  {
    var o := Overdue(s, c);
    var resumed := o.(miners := o.miners[c.miner := o.miners[c.miner].(positive := true)]);
    RunPair(o, EvSetState(c.miner, true),
            EvDeclare(c.user, c.pending, [Only(c.pending)], [Candidate(c.miner, Bytes(7))]));
    Declares(resumed, c.pending, c.user, c.miner);
    assert resumed.deals[c.pending := Opened(c.pending, c.user, c.miner)]
        == map[c.pending := Opened(c.pending, c.user, c.miner)];
  }

  lemma OpenLoadOfOne(h: Hash, deal: Deal, who: Account)
    ensures OpenLoad(map[h := deal], who) == Load(deal.tasks, who)
  {
    OpenLoadUpdate(map[], h, deal, who);
    assert LoadsBy(map[], who) == map[];
    assert map[][h := deal] == map[h := deal];
  }

  /**
   * A deal can be declared again over an open one: the call at its deadline fails whichever miners are drawn, and from
   * the second declaration on the miner keeps three fragments locked that no deal needs.
   */
  lemma RedeclaringAbandons(g: State, c: Cast)
    requires IsGenesis(g) && c.Valid()
    ensures var r := Run(g, Arrivals(c) + Purchases(c) + Expiring(c) + Redeclaring(c));
            Locked(r.miners, c.miner) == Bytes(OpenLoad(r.deals, c.miner) + 3) == Bytes(6)
    ensures Abandoned(g, Arrivals(c) + Purchases(c) + Expiring(c) + Redeclaring(c), c.miner) == 3
  {
    var es := Arrivals(c) + Purchases(c);
    var s := Run(g, es);
    Begins(g, c);
    RunInTwo(g, es, Expiring(c));
    Expires(s, c);
    RunInTwo(g, es + Expiring(c), Redeclaring(c));
    Redeclares(s, c);
    OpenLoadOfOne(c.pending, Opened(c.pending, c.user, c.miner), c.miner);
    RestoredWeighs(c);
    LockedMatchesDeals(g, es + Expiring(c) + Redeclaring(c), c.miner);
  }
}

/**
 * What completing and expiring a deal find: the locked space of its user and the idle space of the network, over
 * whole runs.
 */
module Completion {
  import opened Base
  import opened Allocation
  import opened Placement
  import opened Deals
  import opened StoredFiles
  import US = UserSpace

  // ----- What the open deals ask for

  /** Fragments of a whole assignment. */
  function Frags(tasks: seq<Task>): nat {
    if tasks == [] then 0 else |tasks[0].fragments| + Frags(tasks[1..])
  }

  /** Space a user has locked for a deal that nobody has completed yet. */
  function ReservedAt(deals: map<Hash, Deal>, h: Hash, user: Account): nat {
    if h in deals && deals[h].user == user && deals[h].stage == 1 then Needed(|deals[h].segments|) else 0
  }

  function Reservations(deals: map<Hash, Deal>, user: Account): map<Hash, nat> {
    map h | h in deals :: ReservedAt(deals, h, user)
  }

  ghost function Reserved(deals: map<Hash, Deal>, user: Account): nat {
    MapSum(Reservations(deals, user))
  }

  lemma ReservedElsewhere(deals: map<Hash, Deal>, h: Hash, user: Account)
    ensures Reserved(deals, user) == Reserved(deals - {h}, user) + ReservedAt(deals, h, user)
  {
    MapSumRemove(Reservations(deals, user), h);
    assert Reservations(deals - {h}, user) == Reservations(deals, user) - {h};
  }

  function IdleBy(ms: Miners): map<Account, nat> {
    map a | a in ms :: ms[a].idle
  }

  ghost function SumIdle(ms: Miners): nat {
    MapSum(IdleBy(ms))
  }

  lemma IdleUpdate(ms: Miners, who: Account, m: Miner)
    ensures SumIdle(ms[who := m]) == SumIdle(ms) - (if who in ms then ms[who].idle else 0) + m.idle
  {
    MapSumUpdate(IdleBy(ms), who, m.idle);
    assert IdleBy(ms[who := m]) == IdleBy(ms)[who := m.idle];
  }

  function LockedBy(users: map<Account, US.Space>): map<Account, nat> {
    map a | a in users :: users[a].locked
  }

  /** What all users together have locked. */
  ghost function SumLocked(users: map<Account, US.Space>): nat {
    MapSum(LockedBy(users))
  }

  lemma LockedUpdate(users: map<Account, US.Space>, who: Account, u: US.Space)
    ensures SumLocked(users[who := u]) == SumLocked(users) - (if who in users then users[who].locked else 0) + u.locked
    ensures who in users ==> users[who].locked <= SumLocked(users)
  {
    MapSumUpdate(LockedBy(users), who, u.locked);
    assert LockedBy(users[who := u]) == LockedBy(users)[who := u.locked];
  }

  lemma MoveIdle(ms: Miners, move: Move, who: Account, space: nat)
    requires who in ms && MoveSpace(ms, move, who, space).Some?
    ensures SumIdle(MoveSpace(ms, move, who, space).value)
         == match move case Lock => SumIdle(ms) - space case Unlock => SumIdle(ms) + space case Serve => SumIdle(ms)
  {
    IdleUpdate(ms, who, MoveSpace(ms, move, who, space).value[who]);
  }

  lemma {:induction false} MoveAllIdle(ms: Miners, move: Move, tasks: seq<Task>)
    requires KnownTasks(tasks, ms) && MoveAll(ms, move, tasks).Some?
    ensures var idle := SumIdle(MoveAll(ms, move, tasks).value);
            match move
            case Lock => idle == SumIdle(ms) - Bytes(Frags(tasks))
            case Unlock => idle == SumIdle(ms) + Bytes(Frags(tasks))
            case Serve => idle == SumIdle(ms)
    decreases |tasks|
  {
    if tasks != [] {
      var space := Bytes(|tasks[0].fragments|);
      MoveIdle(ms, move, tasks[0].miner, space);
      MoveAllIdle(MoveSpace(ms, move, tasks[0].miner, space).value, move, tasks[1..]);
    }
  }

  lemma {:induction false} FragsAreBag(tasks: seq<Task>, placed: Tasks)
    requires |tasks| == |placed| && forall j :: 0 <= j < |tasks| ==> tasks[j].fragments == placed[j]
    ensures Frags(tasks) == |Bag(placed)|
  {
    if tasks != [] {
      FragsAreBag(tasks[1..], placed[1..]);
    }
  }

  lemma {:induction false} AllFragmentsSize(segments: seq<Segment>)
    requires WellFormed(segments)
    ensures |AllFragments(segments)| == 3 * |segments|
  {
    if segments != [] {
      AllFragmentsSize(segments[1..]);
    }
  }

  /** An assignment is as large as the space its file needs. */
  lemma AssignedSize(segments: seq<Segment>, chosen: seq<Candidate>)
    requires WellFormed(segments) && |chosen| > 0 && Assigned(segments, chosen).Some?
    ensures Bytes(Frags(Assigned(segments, chosen).value)) == Needed(|segments|)
  {
    var caps := Capacities(Idles(chosen));
    AllocationIsExact(caps, segments);
    var placed := PlaceAll(Empty(|chosen|), caps, segments).value;
    FragsAreBag(TaskList(chosen, placed), placed);
    AllFragmentsSize(segments);
    assert |multiset(AllFragments(segments))| == |AllFragments(segments)|;
  }

  // ----- What every call keeps

  /**
   * A deal's user is known, its assignment has the size of its file, and its stage tells what is scheduled for it and
   * whether a file may have its name.
   */
  ghost predicate StagedAt(s: State, h: Hash) {
    h in s.deals ==>
      var deal := s.deals[h];
      && deal.user in s.users
      && WellFormed(deal.segments) && Bytes(Frags(deal.tasks)) == Needed(|deal.segments|)
      && (deal.stage == 1 || deal.stage == 2)
      && (h in s.files ==> deal.stage == 2)
      && (h in s.scheduled ==> (s.scheduled[h].Reassign? <==> deal.stage == 1))
  }

  ghost predicate Staged(s: State) {
    forall h :: StagedAt(s, h)
  }

  function UserLocked(s: State, user: Account): nat {
    if user in s.users then s.users[user].locked else 0
  }

  /** A user's locked space beyond its reservations. */
  ghost function Gap(s: State, user: Account): int {
    UserLocked(s, user) - Reserved(s.deals, user)
  }

  /** The network's idle space beyond the idle space of its miners and the locked space of its users. */
  ghost function IdleGap(s: State): int {
    s.totalIdle - SumIdle(s.miners) - SumLocked(s.users)
  }

  ghost predicate Books(s: State, s': State, user: Account, shift: int) {
    && Staged(s')
    && Gap(s', user) == Gap(s, user) + shift
    && IdleGap(s') == IdleGap(s)
  }

  lemma StagedElsewhere(s: State, s': State, h: Hash)
    requires Staged(s) && StagedAt(s', h) && SameElsewhere(s, s', h) && s.users.Keys <= s'.users.Keys
    ensures Staged(s')
  {
    forall k ensures StagedAt(s', k) {
      if k != h {
        assert StagedAt(s, k);
        assert k in s'.deals - {h} <==> k in s.deals - {h};
        assert k in s'.files - {h} <==> k in s.files - {h};
        assert k in s'.scheduled - {h} <==> k in s.scheduled - {h};
        assert k in s.deals ==> s'.deals[k] == (s'.deals - {h})[k] == (s.deals - {h})[k];
        assert k in s.scheduled ==> s'.scheduled[k] == (s'.scheduled - {h})[k] == (s.scheduled - {h})[k];
      }
    }
  }

  /** A step that touches one hash balances its books there. */
  lemma BooksAt(s: State, s': State, h: Hash, user: Account, shift: int)
    requires Staged(s) && SameElsewhere(s, s', h) && StagedAt(s', h) && s.users.Keys <= s'.users.Keys
    requires UserLocked(s', user) - ReservedAt(s'.deals, h, user)
          == UserLocked(s, user) - ReservedAt(s.deals, h, user) + shift
    requires IdleGap(s') == IdleGap(s)
    ensures Books(s, s', user, shift)
  {
    StagedElsewhere(s, s', h);
    ReservedElsewhere(s.deals, h, user);
    ReservedElsewhere(s'.deals, h, user);
  }

  /** Neither deals nor which files there are change. */
  lemma BooksKept(s: State, s': State, user: Account)
    requires Staged(s) && s'.deals == s.deals && s'.files.Keys == s.files.Keys && s.users.Keys <= s'.users.Keys
    requires forall h :: h in s'.scheduled ==> h in s.scheduled && s'.scheduled[h] == s.scheduled[h]
    requires UserLocked(s', user) == UserLocked(s, user) && IdleGap(s') == IdleGap(s)
    ensures Books(s, s', user, 0)
  {
    forall h ensures StagedAt(s', h) {
      assert StagedAt(s, h);
    }
  }

  lemma DeclareIdle(s: State, owner: Account, h: Hash, segments: seq<Segment>, chosen: seq<Candidate>)
    requires Known(s) && owner in s.users && WellFormed(segments) && DeclareDeal(s, owner, h, segments, chosen).Some?
    ensures var s', tasks := DeclareDeal(s, owner, h, segments, chosen).value, Assigned(segments, chosen).value;
            IdleGap(s') == IdleGap(s) && Bytes(Frags(tasks)) == Needed(|segments|)
  {
    AssignedIsKnown(s.miners, segments, chosen);
    AssignedSize(segments, chosen);
    MoveAllIdle(s.miners, Lock, Assigned(segments, chosen).value);
    LockedUpdate(s.users, owner, US.Lock(s.users[owner], Needed(|segments|)).value);
  }

  lemma DeclareStages(s: State, owner: Account, h: Hash, segments: seq<Segment>, chosen: seq<Candidate>, user: Account)
    requires owner in s.users && WellFormed(segments) && h !in s.files
    requires DeclareDeal(s, owner, h, segments, chosen).Some?
    requires Bytes(Frags(Assigned(segments, chosen).value)) == Needed(|segments|)
    ensures var s' := DeclareDeal(s, owner, h, segments, chosen).value;
            && SameElsewhere(s, s', h) && StagedAt(s', h) && s'.users.Keys == s.users.Keys
            && UserLocked(s', user) - ReservedAt(s'.deals, h, user) == UserLocked(s, user)
  {
  }

  lemma DeclareBooks(s: State, owner: Account, h: Hash, segments: seq<Segment>, chosen: seq<Candidate>, user: Account)
    requires Known(s) && Staged(s) && owner in s.users && WellFormed(segments) && h !in s.files
    requires DeclareDeal(s, owner, h, segments, chosen).Some?
    ensures Books(s, DeclareDeal(s, owner, h, segments, chosen).value, user, ReservedAt(s.deals, h, user))
  {
    DeclareIdle(s, owner, h, segments, chosen);
    DeclareStages(s, owner, h, segments, chosen, user);
    BooksAt(s, DeclareDeal(s, owner, h, segments, chosen).value, h, user, ReservedAt(s.deals, h, user));
  }

  /** Frees the old miners of a deal and locks the space of the new ones. */
  lemma NewMinersIdle(s: State, h: Hash, count: nat, chosen: seq<Candidate>)
    requires Known(s) && StagedAt(s, h) && ReassignDeal(s, h, count, chosen).Some? && count < MAX_REASSIGN
    ensures var s', deal := ReassignDeal(s, h, count, chosen).value, s.deals[h];
            SumIdle(s'.miners) == SumIdle(s.miners) && Bytes(Frags(s'.deals[h].tasks)) == Needed(|deal.segments|)
  {
    var deal := s.deals[h];
    assert KnownTasks(deal.tasks, s.miners);
    MoveAllIdle(s.miners, Unlock, deal.tasks);
    MoveAllEffect(s.miners, Unlock, deal.tasks, 0);
    var freed := MoveAll(s.miners, Unlock, deal.tasks).value;
    AssignedIsKnown(freed, deal.segments, chosen);
    AssignedSize(deal.segments, chosen);
    MoveAllIdle(freed, Lock, Assigned(deal.segments, chosen).value);
  }

  lemma NewMinersStages(s: State, h: Hash, count: nat, chosen: seq<Candidate>)
    requires StagedAt(s, h) && ReassignDeal(s, h, count, chosen).Some? && count < MAX_REASSIGN && s.deals[h].stage == 1
    requires var s' := ReassignDeal(s, h, count, chosen).value;
             Bytes(Frags(s'.deals[h].tasks)) == Needed(|s.deals[h].segments|)
    ensures var s' := ReassignDeal(s, h, count, chosen).value;
            && SameElsewhere(s, s', h) && StagedAt(s', h)
            && s'.users == s.users && s'.totalIdle == s.totalIdle
            && s'.deals[h] == s.deals[h].(tasks := s'.deals[h].tasks, complete := [], count := count)
  {
  }

  lemma ReassignBooks(s: State, h: Hash, count: nat, chosen: seq<Candidate>, user: Account)
    requires Known(s) && Staged(s) && ReassignDeal(s, h, count, chosen).Some? && s.deals[h].stage == 1
    requires count < MAX_REASSIGN
    ensures Books(s, ReassignDeal(s, h, count, chosen).value, user, 0)
  {
    assert StagedAt(s, h);
    NewMinersIdle(s, h, count, chosen);
    NewMinersStages(s, h, count, chosen);
    BooksAt(s, ReassignDeal(s, h, count, chosen).value, h, user, 0);
  }

  lemma ExpireBooks(s: State, h: Hash, count: nat, chosen: seq<Candidate>, user: Account)
    requires Known(s) && Staged(s) && ReassignDeal(s, h, count, chosen).Some? && s.deals[h].stage == 1
    requires count >= MAX_REASSIGN
    ensures Books(s, ReassignDeal(s, h, count, chosen).value, user, 0)
  {
    var deal := s.deals[h];
    assert StagedAt(s, h) && KnownTasks(deal.tasks, s.miners);
    MoveAllIdle(s.miners, Unlock, deal.tasks);
    LockedUpdate(s.users, deal.user, US.Unlock(s.users[deal.user], Needed(|deal.segments|)).value);
    BooksAt(s, ReassignDeal(s, h, count, chosen).value, h, user, 0);
  }

  lemma FinishBooks(s: State, h: Hash, user: Account)
    requires Known(s) && Staged(s) && FinishDeal(s, h).Some?
    ensures Books(s, FinishDeal(s, h).value, user, 0)
  {
    assert StagedAt(s, h) && KnownTasks(s.deals[h].tasks, s.miners);
    MoveAllIdle(s.miners, Serve, s.deals[h].tasks);
    BooksAt(s, FinishDeal(s, h).value, h, user, 0);
  }

  lemma FireBooks(s: State, h: Hash, chosen: seq<Candidate>, user: Account)
    requires Known(s) && Staged(s) && h in s.scheduled
    ensures Books(s, Fire(s, h, chosen).value, user, 0)
  {
    var due, freed := s.scheduled[h], s.(scheduled := s.scheduled - {h});
    assert StagedAt(s, h) && Known(freed);
    BooksKept(s, freed, user);
    if due.Finish? {
      if FinishDeal(freed, h).Some? {
        FinishBooks(freed, h, user);
      }
    } else if ReassignDeal(freed, h, due.count, chosen).Some? {
      if due.count < MAX_REASSIGN {
        ReassignBooks(freed, h, due.count, chosen, user);
      } else {
        ExpireBooks(freed, h, due.count, chosen, user);
      }
    }
  }

  // ----- Reports

  /** What completing a deal a second time takes from its user: space locked for other deals. */
  function Overdrawn(s: State, reporter: Account, h: Hash, user: Account): nat {
    if IsLastReport(s, reporter, h) && s.deals[h].user == user && s.deals[h].stage != 1
    then Needed(|s.deals[h].segments|) else 0
  }

  lemma CompleteStages(s: State, h: Hash, deal: Deal, user: Account)
    requires StagedAt(s, h) && h in s.deals && CompleteDeal(s, h, deal).Some?
    requires deal == s.deals[h].(complete := deal.complete)
    ensures var s' := CompleteDeal(s, h, deal).value;
            && SameElsewhere(s, s', h) && StagedAt(s', h) && s'.users.Keys == s.users.Keys
            && ReservedAt(s'.deals, h, user) == 0
            && UserLocked(s', user) == UserLocked(s, user) - if deal.user == user then Needed(|deal.segments|) else 0
  {
  }

  lemma CompleteBooks(s: State, h: Hash, deal: Deal, user: Account)
    requires Staged(s) && h in s.deals && CompleteDeal(s, h, deal).Some?
    requires deal == s.deals[h].(complete := deal.complete)
    ensures Books(s, CompleteDeal(s, h, deal).value, user,
                  if deal.user == user && deal.stage != 1 then 0 - Needed(|deal.segments|) else 0)
  {
    assert StagedAt(s, h);
    CompleteStages(s, h, deal, user);
    LockedUpdate(s.users, deal.user, US.UnlockAndUse(s.users[deal.user], Needed(|deal.segments|)).value);
    BooksAt(s, CompleteDeal(s, h, deal).value, h, user,
            if deal.user == user && deal.stage != 1 then 0 - Needed(|deal.segments|) else 0);
  }

  lemma ReportOneBooks(s: State, reporter: Account, h: Hash, user: Account)
    requires Staged(s) && ReportOne(s, reporter, h).Some?
    ensures Books(s, ReportOne(s, reporter, h).value, user, 0 - Overdrawn(s, reporter, h, user))
  {
    if h in s.deals && Assignee(s.deals[h].tasks, reporter) {
      var deal := s.deals[h];
      var complete := if reporter in deal.complete then deal.complete else deal.complete + [reporter];
      if |complete| == |deal.tasks| {
        CompleteBooks(s, h, deal.(complete := complete), user);
      } else {
        assert StagedAt(s, h);
        BooksAt(s, s.(deals := s.deals[h := deal.(complete := complete)]), h, user, 0);
      }
    }
  }

  function ReportOverdrawn(s: State, reporter: Account, hashes: seq<Hash>, user: Account): nat
    decreases |hashes|
  {
    if hashes == [] || ReportOne(s, reporter, hashes[0]).None? then 0
    else Overdrawn(s, reporter, hashes[0], user)
         + ReportOverdrawn(ReportOne(s, reporter, hashes[0]).value, reporter, hashes[1..], user)
  }

  lemma {:induction false} ReportBooks(s: State, reporter: Account, hashes: seq<Hash>, user: Account)
    requires Staged(s) && Report(s, reporter, hashes).Some?
    ensures Books(s, Report(s, reporter, hashes).value, user, 0 - ReportOverdrawn(s, reporter, hashes, user))
    decreases |hashes|
  {
    if hashes != [] {
      ReportOneBooks(s, reporter, hashes[0], user);
      ReportBooks(ReportOne(s, reporter, hashes[0]).value, reporter, hashes[1..], user);
    }
  }

  // ----- Deletions

  lemma {:induction false} TakingKeepsIdle(ms: Miners, infos: seq<FragmentInfo>)
    requires TakeService(ms, infos).Some?
    ensures SumIdle(TakeService(ms, infos).value) == SumIdle(ms)
    decreases |infos|
  {
    if infos != [] {
      if infos[0].miner in ms {
        var m := ms[infos[0].miner];
        IdleUpdate(ms, infos[0].miner, m.(service := m.service - FRAGMENT_SIZE));
        TakingKeepsIdle(ms[infos[0].miner := m.(service := m.service - FRAGMENT_SIZE)], infos[1..]);
      } else {
        TakingKeepsIdle(ms, infos[1..]);
      }
    }
  }

  lemma LastOwnerBooks(s: State, h: Hash, owner: Account, user: Account)
    requires Staged(s) && h in s.files && RemoveLastOwner(s, h, owner).Some?
    ensures Books(s, RemoveLastOwner(s, h, owner).value, user, 0)
  {
    var infos := AllInfos(s.files[h].segments);
    assert StagedAt(s, h);
    TakingKeepsIdle(s.miners, infos);
    LockedUpdate(s.users, owner, US.Release(s.users[owner], Bytes(|infos|)).value);
    BooksAt(s, RemoveLastOwner(s, h, owner).value, h, user, 0);
  }

  lemma OwnerBooks(s: State, h: Hash, owner: Account, user: Account)
    requires Staged(s) && RemoveOwner(s, h, owner).Some?
    ensures Books(s, RemoveOwner(s, h, owner).value, user, 0)
  {
    if owner in s.files[h].owners {
      LockedUpdate(s.users, owner, US.Release(s.users[owner], Needed(|s.files[h].segments|)).value);
    }
    BooksKept(s, RemoveOwner(s, h, owner).value, user);
  }

  lemma {:induction false} OwnersBooks(s: State, h: Hash, owner: Account, owners: seq<Account>, user: Account)
    requires Staged(s) && RemoveOwners(s, h, owner, owners).Some?
    ensures Books(s, RemoveOwners(s, h, owner, owners).value, user, 0)
    decreases |owners|
  {
    if owners == [] {
      BooksKept(s, s, user);
    } else if owners[0] == owner {
      OwnerBooks(s, h, owner, user);
      OwnersBooks(RemoveOwner(s, h, owner).value, h, owner, owners[1..], user);
    } else {
      OwnersBooks(s, h, owner, owners[1..], user);
    }
  }

  lemma DeleteOneBooks(s: State, h: Hash, owner: Account, user: Account)
    requires Staged(s) && DeleteOne(s, h, owner).Some?
    ensures Books(s, DeleteOne(s, h, owner).value, user, 0)
  {
    if |s.files[h].owners| > 1 {
      OwnersBooks(s, h, owner, s.files[h].owners, user);
    } else if s.files[h].owners == [owner] {
      LastOwnerBooks(s, h, owner, user);
    } else {
      BooksKept(s, s, user);
    }
  }

  lemma EmptyOneBooks(s: State, h: Hash, owner: Account, user: Account)
    requires Staged(s) && EmptyOne(s, h, owner).Some?
    ensures Books(s, EmptyOne(s, h, owner).value, user, 0)
  {
    if |s.files[h].owners| > 1 {
      OwnerBooks(s, h, owner, user);
    } else {
      LastOwnerBooks(s, h, owner, user);
    }
  }

  lemma {:induction false} DeleteBooks(s: State, owner: Account, hashes: seq<Hash>, bucket: bool, user: Account)
    requires Staged(s) && Delete(s, owner, hashes, bucket).Some?
    ensures Books(s, Delete(s, owner, hashes, bucket).value, user, 0)
    decreases |hashes|
  {
    if hashes == [] {
      BooksKept(s, s, user);
    } else if bucket {
      EmptyOneBooks(s, hashes[0], owner, user);
      DeleteBooks(EmptyOne(s, hashes[0], owner).value, owner, hashes[1..], bucket, user);
    } else {
      DeleteOneBooks(s, hashes[0], owner, user);
      DeleteBooks(DeleteOne(s, hashes[0], owner).value, owner, hashes[1..], bucket, user);
    }
  }

  // ----- Runs

  /** What a call leaves locked for a user beyond its reservations: what a replaced deal of that user had reserved. */
  function Replaced(s: State, e: Event, user: Account): nat {
    if e.EvDeclare? && Step(s, e).Some? && e.hash !in s.files then ReservedAt(s.deals, e.hash, user) else 0
  }

  function OverdrawnBy(s: State, e: Event, user: Account): nat {
    if e.EvReport? && Step(s, e).Some? then ReportOverdrawn(s, e.who, e.hashes, user) else 0
  }

  lemma FillerBooks(s: State, e: Event, user: Account)
    requires Staged(s) && Step(s, e).Some? && (e.EvUploadFiller? || e.EvDeleteFiller?)
    ensures Books(s, Step(s, e).value, user, 0)
  {
    var s' := Step(s, e).value;
    IdleUpdate(s.miners, e.who, s'.miners[e.who]);
    BooksKept(s, s', user);
  }

  lemma OrderBooks(s: State, e: Event, user: Account)
    requires Staged(s) && Step(s, e).Some? && (e.EvGenerateOrder? || e.EvClaimOrder? || e.EvCompleteOrder?)
    ensures Books(s, Step(s, e).value, user, 0)
  {
    var s' := Step(s, e).value;
    if e.EvCompleteOrder? {
      RestoreIdle(s.(orders := s.orders - {e.hash}), e.who, e.hash, s.orders[e.hash]);
    }
    BooksKept(s, s', user);
  }

  lemma RestoreIdle(s: State, who: Account, f: Hash, order: Order)
    requires Restore(s, who, f, order).Some?
    ensures SumIdle(Restore(s, who, f, order).value.miners) == SumIdle(s.miners)
  {
    var taken := TakeService(s.miners, [FragmentInfo(f, true, order.origin)]);
    if taken.Some? {
      TakingKeepsIdle(s.miners, [FragmentInfo(f, true, order.origin)]);
      if who in taken.value {
        var m := taken.value[who];
        IdleUpdate(taken.value, who, m.(service := m.service + FRAGMENT_SIZE));
      }
    }
  }

  lemma AccountBooks(s: State, e: Event, user: Account)
    requires Staged(s) && Step(s, e).Some?
    requires e.EvRegister? || e.EvSetState? || e.EvBuySpace? || e.EvExpandSpace? || e.EvFreeze?
    ensures Books(s, Step(s, e).value, user, 0)
  {
    var s' := Step(s, e).value;
    if e.EvRegister? || e.EvSetState? {
      IdleUpdate(s.miners, e.who, s'.miners[e.who]);
    } else {
      LockedUpdate(s.users, e.who, s'.users[e.who]);
    }
    BooksKept(s, s', user);
  }

  lemma JoinBooks(s: State, e: Event, user: Account)
    requires Staged(s) && Step(s, e).Some? && e.EvDeclare? && e.hash in s.files
    ensures Books(s, Step(s, e).value, user, 0)
  {
    LockedUpdate(s.users, e.who, Step(s, e).value.users[e.who]);
    BooksKept(s, Step(s, e).value, user);
  }

  lemma NextBooks(s: State, e: Event, user: Account)
    requires Known(s) && Staged(s)
    ensures Books(s, Next(s, e), user, Replaced(s, e, user) - OverdrawnBy(s, e, user))
  {
    if Step(s, e).None? {
      BooksKept(s, s, user);
    } else {
      match e
      case EvDeclare(owner, h, segments, chosen) =>
        if h in s.files {
          JoinBooks(s, e, user);
        } else {
          DeclareBooks(s, owner, h, segments, chosen, user);
        }
      case EvFire(h, chosen) => FireBooks(s, h, chosen, user);
      case EvReport(miner, hashes) => ReportBooks(s, miner, hashes, user);
      case EvDelete(owner, hashes, bucket) => DeleteBooks(s, owner, hashes, bucket, user);
      case EvUploadFiller(_, _) => FillerBooks(s, e, user);
      case EvDeleteFiller(_, _) => FillerBooks(s, e, user);
      case EvGenerateOrder(_, _, _) => OrderBooks(s, e, user);
      case EvClaimOrder(_, _, _, _) => OrderBooks(s, e, user);
      case EvCompleteOrder(_, _, _) => OrderBooks(s, e, user);
      case _ => AccountBooks(s, e, user);
    }
  }

  function TotalReplaced(s: State, es: seq<Event>, user: Account): nat
    decreases |es|
  {
    if es == [] then 0 else Replaced(s, es[0], user) + TotalReplaced(Next(s, es[0]), es[1..], user)
  }

  function TotalOverdrawn(s: State, es: seq<Event>, user: Account): nat
    decreases |es|
  {
    if es == [] then 0 else OverdrawnBy(s, es[0], user) + TotalOverdrawn(Next(s, es[0]), es[1..], user)
  }

  lemma {:induction false} RunBooks(s: State, es: seq<Event>, user: Account)
    requires Known(s) && Conserved(s) && Staged(s)
    ensures Books(s, Run(s, es), user, TotalReplaced(s, es, user) - TotalOverdrawn(s, es, user))
    decreases |es|
  {
    if es == [] {
      BooksKept(s, s, user);
    } else {
      NextKeeps(s, es[0], user);
      NextBooks(s, es[0], user);
      RunBooks(Next(s, es[0]), es[1..], user);
    }
  }

  lemma GenesisBooks(s: State, es: seq<Event>, user: Account)
    requires IsGenesis(s)
    ensures Staged(Run(s, es))
    ensures Gap(Run(s, es), user) == TotalReplaced(s, es, user) - TotalOverdrawn(s, es, user)
    ensures IdleGap(Run(s, es)) == 0
  {
    GenesisIsGood(s, user);
    assert Reservations(s.deals, user) == map[] && IdleBy(s.miners) == map[] && LockedBy(s.users) == map[];
    RunBooks(s, es, user);
  }

  /**
   * A user's locked space matches its deals: in every run it is what the user's deals that nobody has completed need,
   * plus what replaced deals of the user had reserved, minus what completing deals again took.
   */
  lemma UserSpaceMatchesDeals(s: State, es: seq<Event>, user: Account)
    requires IsGenesis(s)
    ensures UserLocked(Run(s, es), user) + TotalOverdrawn(s, es, user)
         == Reserved(Run(s, es).deals, user) + TotalReplaced(s, es, user)
  {
    GenesisBooks(s, es, user);
  }

  /**
   * The network's idle space matches its miners and users: in every run, deals replaced, completed twice or emptied
   * included, it is the idle space of all miners and the locked space of all users.
   */
  lemma IdleSpaceMatchesLocks(s: State, es: seq<Event>)
    requires IsGenesis(s)
    ensures Run(s, es).totalIdle == SumIdle(Run(s, es).miners) + SumLocked(Run(s, es).users)
  {
    GenesisBooks(s, es, 0);
  }

  /** What the run has left locked for a user: its reservations and the replaced ones, less what was overdrawn. */
  ghost function Lockable(s: State, es: seq<Event>, user: Account): int {
    Reserved(Run(s, es).deals, user) + TotalReplaced(s, es, user) - TotalOverdrawn(s, es, user)
  }

  /** Expiry finds the user's space exactly when so much is left locked; freeing the miners never fails. */
  lemma ExpirySucceedsIff(s: State, es: seq<Event>, h: Hash, count: nat, chosen: seq<Candidate>)
    requires IsGenesis(s) && h in Run(s, es).deals && count >= MAX_REASSIGN
    ensures var r := Run(s, es);
            ReassignDeal(r, h, count, chosen).Some?
            <==> Needed(|r.deals[h].segments|) <= Lockable(s, es, r.deals[h].user)
  {
    GenesisBooks(s, es, Run(s, es).deals[h].user);
    assert StagedAt(Run(s, es), h);
    UnlockNeverUnderflows(s, es, h, Unlock);
  }

  /** Completing finds the user's space exactly when so much is left locked; the network's always suffices. */
  lemma CompletionSucceedsIff(s: State, es: seq<Event>, h: Hash, complete: seq<Account>)
    requires IsGenesis(s) && h in Run(s, es).deals
    ensures var r := Run(s, es);
            CompleteDeal(r, h, r.deals[h].(complete := complete)).Some?
            <==> Needed(|r.deals[h].segments|) <= Lockable(s, es, r.deals[h].user)
  {
    var r := Run(s, es);
    GenesisBooks(s, es, r.deals[h].user);
    assert StagedAt(r, h);
    LockedUpdate(r.users, r.deals[h].user, r.users[r.deals[h].user]);
  }

  /** Expiry of a deal never fails, as long as no deal of its user was completed twice. */
  lemma ExpirySucceeds(s: State, es: seq<Event>, h: Hash, count: nat, chosen: seq<Candidate>)
    requires IsGenesis(s) && h in Run(s, es).deals && Run(s, es).deals[h].stage == 1 && count >= MAX_REASSIGN
    requires TotalOverdrawn(s, es, Run(s, es).deals[h].user) == 0
    ensures ReassignDeal(Run(s, es), h, count, chosen).Some?
  {
    ExpirySucceedsIff(s, es, h, count, chosen);
    ReservedElsewhere(Run(s, es).deals, h, Run(s, es).deals[h].user);
  }

  /** The first completion of a deal never fails either, as long as no deal of its user was completed twice. */
  lemma FirstCompletionSucceeds(s: State, es: seq<Event>, h: Hash, complete: seq<Account>)
    requires IsGenesis(s) && h in Run(s, es).deals && Run(s, es).deals[h].stage == 1
    requires TotalOverdrawn(s, es, Run(s, es).deals[h].user) == 0
    ensures CompleteDeal(Run(s, es), h, Run(s, es).deals[h].(complete := complete)).Some?
  {
    CompletionSucceedsIff(s, es, h, complete);
    ReservedElsewhere(Run(s, es).deals, h, Run(s, es).deals[h].user);
  }

  // ----- All of it as one invariant

  /** What every call relies on and keeps. */
  ghost predicate Sane(s: State) {
    && Known(s) && Conserved(s) && Staged(s) && IdleGap(s) == 0
    && (forall a: Account :: Slack(s, a) >= 0)
    && (forall a: Account :: Sound(s, a))
  }

  lemma SaneNext(s: State, e: Event)
    requires Sane(s)
    ensures Sane(Next(s, e))
  {
    forall a: Account ensures Slack(Next(s, e), a) >= 0 && Sound(Next(s, e), a) {
      assert Slack(s, a) >= 0 && Sound(s, a);
      NextKeeps(s, e, a);
      NextAccounts(s, e, a);
    }
    NextKeeps(s, e, 0);
    NextBooks(s, e, 0);
  }

  lemma {:induction false} SaneRun(s: State, es: seq<Event>)
    requires Sane(s)
    ensures Sane(Run(s, es))
    decreases |es|
  {
    if es != [] {
      SaneNext(s, es[0]);
      SaneRun(Next(s, es[0]), es[1..]);
    }
  }

  lemma GenesisIsSane(s: State)
    requires IsGenesis(s)
    ensures Sane(s)
  {
    forall a: Account ensures Slack(s, a) >= 0 && Sound(s, a) {
      GenesisIsGood(s, a);
    }
    GenesisIsGood(s, 0);
    assert IdleBy(s.miners) == map[] && LockedBy(s.users) == map[];
  }

  /** Freeing a deal's name at the scheduler changes none of it. */
  lemma FreedIsSane(s: State, h: Hash)
    requires Sane(s)
    ensures Sane(s.(scheduled := s.scheduled - {h}))
  {
    var freed := s.(scheduled := s.scheduled - {h});
    assert Known(freed) && Conserved(freed);
    BooksKept(s, freed, 0);
    forall a: Account ensures Slack(freed, a) >= 0 && Sound(freed, a) {
      assert Slack(s, a) >= 0 && Sound(s, a);
      RestKept(s, freed, a);
    }
  }
}

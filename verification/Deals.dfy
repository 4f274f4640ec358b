/**
 * Storage deals and space accounting: declaring a file locks space on miners and for the user, deals are reassigned,
 * reported, finished or expire, and every space counter is kept per miner and globally.
 */
module Deals {
  import opened Base
  import opened Allocation
  import opened Placement
  import US = UserSpace

  datatype Miner = Miner(positive: bool, idle: nat, locked: nat, service: nat) {
    function Held(): nat { idle + locked + service }
  }

  type Miners = map<Account, Miner>

  /** The call scheduled under a deal's hash. */
  datatype Pending = Reassign(count: nat) | Finish

  datatype Deal = Deal(segments: seq<Segment>, tasks: seq<Task>, user: Account, complete: seq<Account>,
                       stage: nat, count: nat)

  datatype File = File(segments: seq<SegmentInfo>, owners: seq<Account>, active: bool)

  /** An order to restore a fragment that its miner lost, open to one miner until its deadline. */
  datatype Order = Order(file: Hash, origin: Account, miner: Account, deadline: nat)

  datatype State = State(
    miners: Miners,
    deals: map<Hash, Deal>,
    files: map<Hash, File>,
    fillers: set<(Account, Hash)>,
    users: map<Account, US.Space>,
    orders: map<Hash, Order>,
    scheduled: map<Hash, Pending>,
    totalIdle: nat,
    totalService: nat)

  // ----- Moving a miner's space

  datatype Move = Lock | Unlock | Serve

  /** `lock_space`, `unlock_space` and `unlock_space_to_service`; only unlocking forgives a missing miner. */
  function MoveSpace(ms: Miners, move: Move, who: Account, space: nat): Option<Miners> {
    if who !in ms then if move.Unlock? then Some(ms) else None
    else
      var m := ms[who];
      match move
      case Lock =>
        if m.idle < space then None
        else Some(ms[who := m.(locked := m.locked + space, idle := m.idle - space)])
      case Unlock =>
        if m.locked < space then None
        else Some(ms[who := m.(locked := m.locked - space, idle := m.idle + space)])
      case Serve =>
        if m.locked < space then None
        else Some(ms[who := m.(locked := m.locked - space, service := m.service + space)])
  }

  /** Locking takes idle space and the others locked space; of a miner that is gone, unlocking alone asks nothing. */
  lemma MoveSucceedsIff(ms: Miners, move: Move, who: Account, space: nat)
    ensures MoveSpace(ms, move, who, space).Some?
       <==> if who in ms then space <= (if move == Lock then ms[who].idle else ms[who].locked) else move == Unlock
    ensures who !in ms && move == Unlock ==> MoveSpace(ms, move, who, space) == Some(ms)
  {
  }

  function MoveAll(ms: Miners, move: Move, tasks: seq<Task>): Option<Miners>
    decreases |tasks|
  {
    if tasks == [] then Some(ms)
    else
      var moved := MoveSpace(ms, move, tasks[0].miner, Bytes(|tasks[0].fragments|));
      if moved.None? then None else MoveAll(moved.value, move, tasks[1..])
  }

  /** Fragments a task list puts on a miner. */
  function Load(tasks: seq<Task>, who: Account): nat {
    if tasks == [] then 0
    else (if tasks[0].miner == who then |tasks[0].fragments| else 0) + Load(tasks[1..], who)
  }

  function HeldBy(ms: Miners): map<Account, nat> {
    map a | a in ms :: ms[a].Held()
  }

  ghost function TotalHeld(ms: Miners): nat {
    MapSum(HeldBy(ms))
  }

  lemma HeldUpdate(ms: Miners, who: Account, m: Miner)
    ensures TotalHeld(ms[who := m]) == TotalHeld(ms) - (if who in ms then ms[who].Held() else 0) + m.Held()
    ensures who in ms ==> ms[who].Held() <= TotalHeld(ms)
  {
    MapSumUpdate(HeldBy(ms), who, m.Held());
    assert HeldBy(ms[who := m]) == HeldBy(ms)[who := m.Held()];
  }

  lemma MoveEffect(ms: Miners, move: Move, who: Account, space: nat)
    requires MoveSpace(ms, move, who, space).Some?
    ensures var ms' := MoveSpace(ms, move, who, space).value;
            && ms'.Keys == ms.Keys
            && TotalHeld(ms') == TotalHeld(ms)
            && (forall a :: a in ms && a != who ==> ms'[a] == ms[a])
            && (who in ms ==> ms'[who].locked == if move.Lock? then ms[who].locked + space else ms[who].locked - space)
  {
    if who in ms {
      HeldUpdate(ms, who, MoveSpace(ms, move, who, space).value[who]);
    }
  }

  /** Moves conserve what miners hold, and shift the locked space by the load. */
  lemma {:induction false} MoveAllEffect(ms: Miners, move: Move, tasks: seq<Task>, who: Account)
    requires MoveAll(ms, move, tasks).Some?
    ensures var ms' := MoveAll(ms, move, tasks).value;
            && ms'.Keys == ms.Keys
            && TotalHeld(ms') == TotalHeld(ms)
            && (who in ms ==> ms'[who].locked == if move.Lock? then ms[who].locked + Bytes(Load(tasks, who))
                                                  else ms[who].locked - Bytes(Load(tasks, who)))
    decreases |tasks|
  {
    if tasks != [] {
      var space := Bytes(|tasks[0].fragments|);
      MoveEffect(ms, move, tasks[0].miner, space);
      MoveAllEffect(MoveSpace(ms, move, tasks[0].miner, space).value, move, tasks[1..], who);
    }
  }

  /** Unlocking fails only for lack of locked space: enough of it per load always suffices. */
  lemma {:induction false} UnlockSucceeds(ms: Miners, move: Move, tasks: seq<Task>)
    requires !move.Lock?
    requires forall i :: 0 <= i < |tasks| ==> tasks[i].miner in ms
    requires forall a :: a in ms ==> Bytes(Load(tasks, a)) <= ms[a].locked
    ensures MoveAll(ms, move, tasks).Some?
    decreases |tasks|
  {
    if tasks != [] {
      var who := tasks[0].miner;
      assert Load(tasks, who) == |tasks[0].fragments| + Load(tasks[1..], who);
      var moved := MoveSpace(ms, move, who, Bytes(|tasks[0].fragments|)).value;
      forall a | a in moved ensures Bytes(Load(tasks[1..], a)) <= moved[a].locked {
        assert a in ms;
      }
      UnlockSucceeds(moved, move, tasks[1..]);
    }
  }

  // ----- Assigning miners

  const UPLOAD_FILLER_LIMIT: nat := 10
  const MAX_REASSIGN: nat := 5
  const REPORT_LIMIT: nat := 5
  const DELETE_LIMIT: nat := 10

  /** `cal_file_size`: one and a half segments, 24 MiB, for each segment. */
  function Needed(segments: nat): nat {
    segments * 25_165_824
  }

  lemma NeededIsThree(segments: nat)
    ensures Needed(segments) == segments * (SEGMENT_SIZE * 15 / 10) == Bytes(3 * segments)
    ensures MINER_COUNT == 3 && Bytes(segments) == segments * FRAGMENT_SIZE
  {
    assert SEGMENT_SIZE * 15 / 10 == 25_165_824;
  }

  /** What the random choice may yield: at most three distinct positive miners with room, and enough in all. */
  predicate ValidChoice(ms: Miners, segments: nat, chosen: seq<Candidate>) {
    && 0 < |chosen| <= MINER_COUNT
    && (forall i, j :: 0 <= i < j < |chosen| ==> chosen[i].miner != chosen[j].miner)
    && (forall i :: 0 <= i < |chosen| ==>
          && chosen[i].miner in ms
          && ms[chosen[i].miner].positive
          && ms[chosen[i].miner].idle == chosen[i].idle > Bytes(segments))
    && Sum(Idles(chosen)) > SEGMENT_SIZE * 15 / 10
  }

  /** What is assigned to each miner for a choice of miners, if their capacities suffice. */
  function Assigned(segments: seq<Segment>, chosen: seq<Candidate>): Option<seq<Task>>
    requires |chosen| > 0
  {
    var placed := PlaceAll(Empty(|chosen|), Capacities(Idles(chosen)), segments);
    if placed.None? then None
    else
      AllocationIsExact(Capacities(Idles(chosen)), segments);
      Some(TaskList(chosen, placed.value))
  }

  // ----- Calls

  function DeclareDeal(s: State, user: Account, h: Hash, segments: seq<Segment>, chosen: seq<Candidate>): Option<State>
    requires user in s.users
  {
    var space := US.Lock(s.users[user], Needed(|segments|));
    if space.None? || h in s.scheduled || !ValidChoice(s.miners, |segments|, chosen) then None
    else
      var tasks := Assigned(segments, chosen);
      if tasks.None? then None
      else
        var miners := MoveAll(s.miners, Lock, tasks.value);
        if miners.None? then None
        else
          Some(s.(users := s.users[user := space.value],
                  miners := miners.value,
                  scheduled := s.scheduled[h := Reassign(1)],
                  deals := s.deals[h := Deal(segments, tasks.value, user, [], 1, 0)]))
  }

  function Declare(s: State, user: Account, h: Hash, segments: seq<Segment>, chosen: seq<Candidate>): Option<State> {
    if !WellFormed(segments) || user !in s.users || s.users[user].remaining <= Needed(|segments|) then None
    else if h in s.files then
      var space := US.Use(s.users[user], Needed(|segments|));
      if space.None? then None
      else
        Some(s.(users := s.users[user := space.value],
                files := s.files[h := s.files[h].(owners := s.files[h].owners + [user])]))
    else DeclareDeal(s, user, h, segments, chosen)
  }

  function NewMiners(s: State, h: Hash, deal: Deal, count: nat, chosen: seq<Candidate>): Option<State> {
    if !ValidChoice(s.miners, |deal.segments|, chosen) then None
    else
      var tasks := Assigned(deal.segments, chosen);
      if tasks.None? then None
      else
        var miners := MoveAll(s.miners, Lock, tasks.value);
        if miners.None? then None
        else
          Some(s.(miners := miners.value,
                  deals := s.deals[h := deal.(tasks := tasks.value, complete := [], count := count)],
                  scheduled := s.scheduled[h := Reassign(count + 1)]))
  }

  /** A stage-one deal past its deadline: new miners, or after five rounds the end of the deal. */
  function ReassignDeal(s: State, h: Hash, count: nat, chosen: seq<Candidate>): Option<State> {
    if h !in s.deals then None
    else
      var deal := s.deals[h];
      var freed := MoveAll(s.miners, Unlock, deal.tasks);
      if freed.None? then None
      else if count < MAX_REASSIGN then
        NewMiners(s.(miners := freed.value), h, deal, count, chosen)
      else if deal.user !in s.users || US.Unlock(s.users[deal.user], Needed(|deal.segments|)).None? then None
      else
        Some(s.(miners := freed.value,
                users := s.users[deal.user := US.Unlock(s.users[deal.user], Needed(|deal.segments|)).value],
                deals := s.deals - {h}))
  }

  /** `calculate_end`: locked space becomes service space and the file active. */
  function FinishDeal(s: State, h: Hash): Option<State> {
    if h !in s.deals then None
    else
      var miners := MoveAll(s.miners, Serve, s.deals[h].tasks);
      if miners.None? || h !in s.files then None
      else
        Some(s.(miners := miners.value,
                files := s.files[h := s.files[h].(active := true)],
                deals := s.deals - {h}))
  }

  /** The scheduled call of a deal falls due: its name is free again, and a failing call leaves nothing else behind. */
  function Fire(s: State, h: Hash, chosen: seq<Candidate>): Option<State> {
    if h !in s.scheduled then None
    else
      var due, freed := s.scheduled[h], s.(scheduled := s.scheduled - {h});
      var r := if due.Reassign? then ReassignDeal(freed, h, due.count, chosen) else FinishDeal(freed, h);
      Some(if r.Some? then r.value else freed)
  }

  predicate Assignee(tasks: seq<Task>, who: Account) {
    exists i :: 0 <= i < |tasks| && tasks[i].miner == who
  }

  /** The last report completes the deal whatever its stage, so a repeated report completes it again. */
  function CompleteDeal(s: State, h: Hash, deal: Deal): Option<State> {
    var needed := Needed(|deal.segments|);
    if deal.user !in s.users || US.UnlockAndUse(s.users[deal.user], needed).None? || s.totalIdle < needed then None
    else
      Some(s.(deals := s.deals[h := deal.(stage := 2)],
              files := s.files[h := File(FileOf(deal.segments, deal.tasks, []), [deal.user], false)],
              users := s.users[deal.user := US.UnlockAndUse(s.users[deal.user], needed).value],
              totalIdle := s.totalIdle - needed,
              totalService := s.totalService + needed,
              scheduled := s.scheduled[h := Finish]))
  }

  function ReportOne(s: State, who: Account, h: Hash): Option<State> {
    if h !in s.deals || !Assignee(s.deals[h].tasks, who) then Some(s)
    else
      var deal := s.deals[h];
      var reported := deal.(complete := if who in deal.complete then deal.complete else deal.complete + [who]);
      if |reported.complete| == |deal.tasks| then CompleteDeal(s, h, reported)
      else Some(s.(deals := s.deals[h := reported]))
  }

  function Report(s: State, who: Account, hashes: seq<Hash>): Option<State>
    decreases |hashes|
  {
    if hashes == [] then Some(s)
    else
      var r := ReportOne(s, who, hashes[0]);
      if r.None? then None else Report(r.value, who, hashes[1..])
  }

  // ----- Deleting files

  function TakeService(ms: Miners, infos: seq<FragmentInfo>): Option<Miners>
    decreases |infos|
  {
    if infos == [] then Some(ms)
    else if infos[0].miner !in ms then TakeService(ms, infos[1..])
    else
      var m := ms[infos[0].miner];
      if m.service < FRAGMENT_SIZE then None
      else TakeService(ms[infos[0].miner := m.(service := m.service - FRAGMENT_SIZE)], infos[1..])
  }

  /** The last owner leaves: the file goes, and with it the service space of its miners. */
  function RemoveLastOwner(s: State, h: Hash, who: Account): Option<State>
    requires h in s.files
  {
    var infos := AllInfos(s.files[h].segments);
    var size := Bytes(|infos|);
    var miners := TakeService(s.miners, infos);
    if miners.None? || who !in s.users || US.Release(s.users[who], size).None? || s.totalService < size then None
    else
      Some(s.(miners := miners.value,
              users := s.users[who := US.Release(s.users[who], size).value],
              totalService := s.totalService - size,
              files := s.files - {h}))
  }

  function WithoutFirst(owners: seq<Account>, who: Account): seq<Account> {
    if owners == [] then []
    else if owners[0] == who then owners[1..]
    else [owners[0]] + WithoutFirst(owners[1..], who)
  }

  function RemoveOwner(s: State, h: Hash, who: Account): Option<State> {
    if h !in s.files then None
    else if who !in s.files[h].owners then Some(s)
    else
      var size := Needed(|s.files[h].segments|);
      if who !in s.users || US.Release(s.users[who], size).None? then None
      else
        Some(s.(users := s.users[who := US.Release(s.users[who], size).value],
                files := s.files[h := s.files[h].(owners := WithoutFirst(s.files[h].owners, who))]))
  }

  /** One removal per owner entry of the file as it was when the call read it. */
  function RemoveOwners(s: State, h: Hash, who: Account, owners: seq<Account>): Option<State>
    decreases |owners|
  {
    if owners == [] then Some(s)
    else
      var r := if owners[0] == who then RemoveOwner(s, h, who) else Some(s);
      if r.None? then None else RemoveOwners(r.value, h, who, owners[1..])
  }

  function DeleteOne(s: State, h: Hash, who: Account): Option<State> {
    if h !in s.files || !s.files[h].active then None
    else
      var owners := s.files[h].owners;
      if |owners| > 1 then RemoveOwners(s, h, who, owners)
      else if owners == [who] then RemoveLastOwner(s, h, who)
      else Some(s)
  }

  /** Emptying a bucket does not ask whether the file is still being calculated. */
  function EmptyOne(s: State, h: Hash, who: Account): Option<State> {
    if h !in s.files then None
    else if |s.files[h].owners| > 1 then RemoveOwner(s, h, who)
    else RemoveLastOwner(s, h, who)
  }

  function Delete(s: State, who: Account, hashes: seq<Hash>, bucket: bool): Option<State>
    decreases |hashes|
  {
    if hashes == [] then Some(s)
    else
      var r := if bucket then EmptyOne(s, hashes[0], who) else DeleteOne(s, hashes[0], who);
      if r.None? then None else Delete(r.value, who, hashes[1..], bucket)
  }

  // ----- Fillers and restoral

  function AddFillers(fillers: set<(Account, Hash)>, who: Account, hashes: seq<Hash>): Option<set<(Account, Hash)>>
    decreases |hashes|
  {
    if hashes == [] then Some(fillers)
    else if (who, hashes[0]) in fillers then None
    else AddFillers(fillers + {(who, hashes[0])}, who, hashes[1..])
  }

  predicate IsPositive(s: State, who: Account) {
    who in s.miners && s.miners[who].positive
  }

  function UploadFiller(s: State, who: Account, hashes: seq<Hash>): Option<State> {
    var fillers := AddFillers(s.fillers, who, hashes);
    if |hashes| > UPLOAD_FILLER_LIMIT || !IsPositive(s, who) || fillers.None? then None
    else
      var m, space := s.miners[who], Bytes(|hashes|);
      Some(s.(fillers := fillers.value,
              miners := s.miners[who := m.(idle := m.idle + space)],
              totalIdle := s.totalIdle + space))
  }

  function DeleteFiller(s: State, who: Account, h: Hash): Option<State> {
    if || !IsPositive(s, who) || (who, h) !in s.fillers
       || s.miners[who].idle < FRAGMENT_SIZE || s.totalIdle < FRAGMENT_SIZE
    then None
    else
      var m := s.miners[who];
      Some(s.(fillers := s.fillers - {(who, h)},
              miners := s.miners[who := m.(idle := m.idle - FRAGMENT_SIZE)],
              totalIdle := s.totalIdle - FRAGMENT_SIZE))
  }

  /** The infos with the first entry for `f` on `from` rewritten, if there is one. */
  function Rewrite(infos: seq<FragmentInfo>, f: Hash, from: Account, info: FragmentInfo): Option<seq<FragmentInfo>> {
    if infos == [] then None
    else if infos[0].hash == f && infos[0].miner == from then Some([info] + infos[1..])
    else
      var rest := Rewrite(infos[1..], f, from, info);
      if rest.None? then None else Some([infos[0]] + rest.value)
  }

  function RewriteFile(segments: seq<SegmentInfo>, f: Hash, from: Account,
                       info: FragmentInfo): Option<seq<SegmentInfo>> {
    if segments == [] then None
    else
      var here := Rewrite(segments[0].fragments, f, from, info);
      if here.Some? then Some([segments[0].(fragments := here.value)] + segments[1..])
      else
        var rest := RewriteFile(segments[1..], f, from, info);
        if rest.None? then None else Some([segments[0]] + rest.value)
  }

  function GenerateOrder(s: State, who: Account, file: Hash, f: Hash): Option<State> {
    if f in s.orders || file !in s.files then None
    else
      var segments := RewriteFile(s.files[file].segments, f, who, FragmentInfo(f, false, who));
      if segments.None? then None
      else
        Some(s.(files := s.files[file := s.files[file].(segments := segments.value)],
                orders := s.orders[f := Order(file, who, who, 0)]))
  }

  function ClaimOrder(s: State, who: Account, f: Hash, now: nat, life: nat): Option<State> {
    if !IsPositive(s, who) || f !in s.orders || now <= s.orders[f].deadline then None
    else Some(s.(orders := s.orders[f := s.orders[f].(miner := who, deadline := now + life)]))
  }

  /** The fragment moves to the restoring miner, and its service space with it. */
  function CompleteOrder(s: State, who: Account, f: Hash, now: nat): Option<State> {
    if !IsPositive(s, who) || f !in s.orders || s.orders[f].miner != who || now >= s.orders[f].deadline then None
    else Restore(s.(orders := s.orders - {f}), who, f, s.orders[f])
  }

  function Restore(s: State, who: Account, f: Hash, order: Order): Option<State> {
    if order.file !in s.files then Some(s)
    else
      var segments := RewriteFile(s.files[order.file].segments, f, order.origin, FragmentInfo(f, true, who));
      if segments.None? then Some(s)
      else
        var miners := TakeService(s.miners, [FragmentInfo(f, true, order.origin)]);
        if miners.None? || who !in miners.value then None
        else
          var m := miners.value[who];
          Some(s.(miners := miners.value[who := m.(service := m.service + FRAGMENT_SIZE)],
                  files := s.files[order.file := s.files[order.file].(segments := segments.value)]))
  }

  // ----- What one call undoes

  lemma {:induction false} WithoutFirstTakesOne(owners: seq<Account>, who: Account)
    requires who in owners
    ensures multiset(WithoutFirst(owners, who)) == multiset(owners) - multiset{who}
  {
    assert owners == [owners[0]] + owners[1..];
    if owners[0] != who {
      WithoutFirstTakesOne(owners[1..], who);
    }
  }

  /** No entry of anybody else follows one of `who`. */
  predicate LastInLine(owners: seq<Account>, who: Account) {
    forall i, j :: 0 <= i < j < |owners| && owners[i] == who ==> owners[j] == who
  }

  /** Leaving takes the first entry and joining adds a last one, so the two cancel only behind everybody else. */
  lemma {:induction false} WithoutLastIff(owners: seq<Account>, who: Account)
    ensures WithoutFirst(owners + [who], who) == owners <==> LastInLine(owners, who)
  {
    if owners == [] {
      assert [] + [who] == [who] && [who][1..] == [];
    } else {
      assert (owners + [who])[1..] == owners[1..] + [who];
      if owners[0] != who {
        WithoutLastIff(owners[1..], who);
        LastInLineTail(owners, who);
      } else if owners[1..] + [who] == owners {
        forall j | 0 <= j < |owners| ensures owners[j] == who {
          ShiftIsConstant(owners, who, j);
        }
      }
    }
  }

  lemma LastInLineTail(owners: seq<Account>, who: Account)
    requires owners != [] && owners[0] != who
    ensures LastInLine(owners, who) <==> LastInLine(owners[1..], who)
  {
    if LastInLine(owners[1..], who) {
      forall i, j | 0 <= i < j < |owners| && owners[i] == who ensures owners[j] == who {
        assert owners[i] == owners[1..][i - 1] && owners[j] == owners[1..][j - 1];
      }
    }
  }

  lemma {:induction false} ShiftIsConstant(owners: seq<Account>, who: Account, j: nat)
    requires j < |owners| && owners[0] == who && owners[1..] + [who] == owners
    ensures owners[j] == who
  {
    if j > 0 {
      ShiftIsConstant(owners, who, j - 1);
      assert owners[j - 1] == (owners[1..] + [who])[j - 1] == owners[j];
    }
  }

  /** Leaving a file takes one entry of the owner and gives its space back; nobody else is touched. */
  lemma RemoveOwnerTakesOne(s: State, h: Hash, who: Account)
    requires h in s.files && who in s.files[h].owners && RemoveOwner(s, h, who).Some?
    ensures var s' := RemoveOwner(s, h, who).value;
            && s' == s.(users := s'.users, files := s'.files)
            && h in s'.files && multiset(s'.files[h].owners) == multiset(s.files[h].owners) - multiset{who}
            && s'.users == s.users[who := US.Release(s.users[who], Needed(|s.files[h].segments|)).value]
            && s'.files == s.files[h := s.files[h].(owners := s'.files[h].owners)]
  {
    WithoutFirstTakesOne(s.files[h].owners, who);
  }

  /**
   * Joining a file and leaving it again restores everything exactly when the user's space was counted right, no entry
   * of the user stands before one of somebody else, and the user declared as many segments as the file has: joining
   * charges what is declared, leaving returns what is stored.
   */
  lemma JoinThenLeave(s: State, user: Account, h: Hash, segments: seq<Segment>, chosen: seq<Candidate>)
    requires h in s.files && Declare(s, user, h, segments, chosen).Some?
    ensures RemoveOwner(Declare(s, user, h, segments, chosen).value, h, user) == Some(s)
       <==> && |segments| == |s.files[h].segments| && LastInLine(s.files[h].owners, user)
            && s.users[user].remaining == s.users[user].total - s.users[user].used
  {
    var u, file, joined := s.users[user], s.files[h], Declare(s, user, h, segments, chosen).value;
    WithoutLastIff(file.owners, user);
    var left := RemoveOwner(joined, h, user);
    if left.Some? {
      var used := u.used + Needed(|segments|) - Needed(|file.segments|);
      assert left.value.files[h] == file.(owners := WithoutFirst(file.owners + [user], user));
      assert left.value.files[h] == file ==> left.value.files == s.files;
      assert left.value.users[user] == u.(used := used, remaining := u.total - used);
      assert u == left.value.users[user] ==> left.value.users == s.users;
    }
  }

  /** Uploading an idle file and deleting it again restores everything. */
  lemma FillerRoundTrips(s: State, who: Account, h: Hash)
    requires UploadFiller(s, who, [h]).Some?
    ensures DeleteFiller(UploadFiller(s, who, [h]).value, who, h) == Some(s)
  {
    assert [h][1..] == [];
    assert AddFillers(s.fillers, who, [h]) == AddFillers(s.fillers + {(who, h)}, who, []);
    var s' := UploadFiller(s, who, [h]).value;
    assert s'.fillers == s.fillers + {(who, h)} && s'.fillers - {(who, h)} == s.fillers;
    assert s'.miners[who := s.miners[who]] == s.miners;
  }

  // ----- Runs

  datatype Event =
    | EvRegister(who: Account)
    | EvSetState(who: Account, positive: bool)
    | EvBuySpace(who: Account, size: nat)
    | EvExpandSpace(who: Account, size: nat)
    | EvFreeze(who: Account, frozen: bool)
    | EvUploadFiller(who: Account, hashes: seq<Hash>)
    | EvDeleteFiller(who: Account, hash: Hash)
    | EvDeclare(who: Account, hash: Hash, segments: seq<Segment>, chosen: seq<Candidate>)
    | EvFire(hash: Hash, chosen: seq<Candidate>)
    | EvReport(who: Account, hashes: seq<Hash>)
    | EvDelete(who: Account, hashes: seq<Hash>, bucket: bool)
    | EvGenerateOrder(who: Account, file: Hash, hash: Hash)
    | EvClaimOrder(who: Account, hash: Hash, now: nat, life: nat)
    | EvCompleteOrder(who: Account, hash: Hash, now: nat)

  function Step(s: State, e: Event): Option<State> {
    match e
    case EvRegister(who) =>
      if who in s.miners then None else Some(s.(miners := s.miners[who := Miner(true, 0, 0, 0)]))
    case EvSetState(who, positive) =>
      if who !in s.miners then None else Some(s.(miners := s.miners[who := s.miners[who].(positive := positive)]))
    case EvBuySpace(who, size) => if who in s.users then None else Some(s.(users := s.users[who := US.Bought(size)]))
    case EvExpandSpace(who, size) =>
      if who !in s.users || US.Expand(s.users[who], size).None? then None
      else Some(s.(users := s.users[who := US.Expand(s.users[who], size).value]))
    case EvFreeze(who, frozen) =>
      if who !in s.users then None else Some(s.(users := s.users[who := s.users[who].(frozen := frozen)]))
    case EvUploadFiller(who, hashes) => UploadFiller(s, who, hashes)
    case EvDeleteFiller(who, h) => DeleteFiller(s, who, h)
    case EvDeclare(who, h, segments, chosen) => Declare(s, who, h, segments, chosen)
    case EvFire(h, chosen) => Fire(s, h, chosen)
    case EvReport(who, hashes) => if |hashes| < REPORT_LIMIT then Report(s, who, hashes) else None
    case EvDelete(who, hashes, bucket) =>
      if bucket || |hashes| < DELETE_LIMIT then Delete(s, who, hashes, bucket) else None
    case EvGenerateOrder(who, file, h) => GenerateOrder(s, who, file, h)
    case EvClaimOrder(who, h, now, life) => ClaimOrder(s, who, h, now, life)
    case EvCompleteOrder(who, h, now) => CompleteOrder(s, who, h, now)
  }

  /** A call that fails is rolled back. */
  function Next(s: State, e: Event): State {
    if Step(s, e).Some? then Step(s, e).value else s
  }

  function Run(s: State, es: seq<Event>): State
    decreases |es|
  {
    if es == [] then s else Run(Next(s, es[0]), es[1..])
  }

  /** Buying opens an account with all of it remaining, expanding adds to both, freezing changes nothing else. */
  lemma AccountEvents(s: State, e: Event)
    requires Step(s, e).Some? && (e.EvBuySpace? || e.EvExpandSpace? || e.EvFreeze?)
    ensures var s' := Step(s, e).value;
            && s' == s.(users := s'.users) && s'.users - {e.who} == s.users - {e.who} && e.who in s'.users
            && (e.EvBuySpace? ==> e.who !in s.users && s'.users[e.who] == US.Space(e.size, 0, 0, e.size, false))
            && (e.EvExpandSpace? ==>
                  && e.who in s.users && !s.users[e.who].frozen
                  && s'.users[e.who].total == s.users[e.who].total + e.size
                  && s'.users[e.who].remaining == s.users[e.who].remaining + e.size)
            && (e.EvFreeze? ==> e.who in s.users && s'.users[e.who] == s.users[e.who].(frozen := e.frozen))
  {
  }

  // ----- What a claim is good for

  lemma {:induction false} ReportKeepsOrders(s: State, who: Account, hashes: seq<Hash>)
    requires Report(s, who, hashes).Some?
    ensures Report(s, who, hashes).value.orders == s.orders
    decreases |hashes|
  {
    if hashes != [] {
      ReportKeepsOrders(ReportOne(s, who, hashes[0]).value, who, hashes[1..]);
    }
  }

  lemma {:induction false} OwnersKeepOrders(s: State, h: Hash, who: Account, owners: seq<Account>)
    requires RemoveOwners(s, h, who, owners).Some?
    ensures RemoveOwners(s, h, who, owners).value.orders == s.orders
    decreases |owners|
  {
    if owners != [] {
      OwnersKeepOrders(if owners[0] == who then RemoveOwner(s, h, who).value else s, h, who, owners[1..]);
    }
  }

  lemma {:induction false} DeleteKeepsOrders(s: State, who: Account, hashes: seq<Hash>, bucket: bool)
    requires Delete(s, who, hashes, bucket).Some?
    ensures Delete(s, who, hashes, bucket).value.orders == s.orders
    decreases |hashes|
  {
    if hashes != [] {
      if !bucket && |s.files[hashes[0]].owners| > 1 {
        OwnersKeepOrders(s, hashes[0], who, s.files[hashes[0]].owners);
      }
      var r := if bucket then EmptyOne(s, hashes[0], who) else DeleteOne(s, hashes[0], who);
      DeleteKeepsOrders(r.value, who, hashes[1..], bucket);
    }
  }

  /** A claimed order changes hands only by another claim, after its deadline, and goes only when its miner is done. */
  lemma NextKeepsOrder(s: State, e: Event, f: Hash)
    requires f in s.orders && (e.EvClaimOrder? && e.hash == f ==> e.now <= s.orders[f].deadline)
    ensures || (f in Next(s, e).orders && Next(s, e).orders[f] == s.orders[f])
            || (Restores(e, f, s.orders[f]) && Step(s, e).Some?)
  {
    if Step(s, e).Some? {
      match e
      case EvReport(who, hashes) => ReportKeepsOrders(s, who, hashes);
      case EvDelete(who, hashes, bucket) => DeleteKeepsOrders(s, who, hashes, bucket);
      case _ =>
    }
  }

  /** The miner of an order completes it before the deadline. */
  predicate Restores(e: Event, f: Hash, order: Order) {
    e.EvCompleteOrder? && e.hash == f && e.who == order.miner && e.now < order.deadline
  }

  /**
   * A claim holds until its deadline: over any run in which nobody claims the order later than that, the order stays
   * as it was claimed, unless the claimant completed it in time. Nobody else can take, change or complete it.
   */
  lemma {:induction false} ClaimHolds(s: State, es: seq<Event>, f: Hash)
    requires f in s.orders
    requires forall k :: 0 <= k < |es| && es[k].EvClaimOrder? && es[k].hash == f ==> es[k].now <= s.orders[f].deadline
    ensures || (f in Run(s, es).orders && Run(s, es).orders[f] == s.orders[f])
            || exists k :: 0 <= k < |es| && Restores(es[k], f, s.orders[f]) && Step(Run(s, es[..k]), es[k]).Some?
    decreases |es|
  {
    if es != [] {
      var s', rest := Next(s, es[0]), es[1..];
      NextKeepsOrder(s, es[0], f);
      assert es[..0] == [];
      if f in s'.orders && s'.orders[f] == s.orders[f] {
        ClaimHolds(s', rest, f);
        if k :| 0 <= k < |rest| && Restores(rest[k], f, s.orders[f]) && Step(Run(s', rest[..k]), rest[k]).Some? {
          assert es[..k + 1][1..] == rest[..k];
          assert Restores(es[k + 1], f, s.orders[f]) && Step(Run(s, es[..k + 1]), es[k + 1]).Some?;
        }
      } else {
        assert Restores(es[0], f, s.orders[f]) && Step(Run(s, es[..0]), es[0]).Some?;
      }
    }
  }

  // ----- What every call keeps

  ghost predicate KnownTasks(tasks: seq<Task>, ms: Miners) {
    forall i :: 0 <= i < |tasks| ==> tasks[i].miner in ms
  }

  ghost predicate KnownInfos(infos: seq<FragmentInfo>, ms: Miners) {
    forall i :: 0 <= i < |infos| ==> infos[i].miner in ms
  }

  /** Every miner that a deal or a file names is registered. */
  ghost predicate Known(s: State) {
    && (forall h :: h in s.deals ==> KnownTasks(s.deals[h].tasks, s.miners))
    && (forall h :: h in s.files ==> KnownInfos(AllInfos(s.files[h].segments), s.miners))
  }

  /** The global counters account for all space held by miners. */
  ghost predicate Conserved(s: State) {
    s.totalIdle + s.totalService == TotalHeld(s.miners)
  }

  function Locked(ms: Miners, who: Account): nat {
    if who in ms then ms[who].locked else 0
  }

  function LoadsBy(deals: map<Hash, Deal>, who: Account): map<Hash, nat> {
    map h | h in deals :: Load(deals[h].tasks, who)
  }

  /** Fragments that open deals put on a miner. */
  ghost function OpenLoad(deals: map<Hash, Deal>, who: Account): nat {
    MapSum(LoadsBy(deals, who))
  }

  /** Locked space beyond what the open deals need. */
  ghost function Slack(s: State, who: Account): int {
    Locked(s.miners, who) - Bytes(OpenLoad(s.deals, who))
  }

  lemma OpenLoadUpdate(deals: map<Hash, Deal>, h: Hash, deal: Deal, who: Account)
    ensures OpenLoad(deals[h := deal], who)
         == OpenLoad(deals, who) - (if h in deals then Load(deals[h].tasks, who) else 0) + Load(deal.tasks, who)
    ensures h in deals ==> Load(deals[h].tasks, who) <= OpenLoad(deals, who)
  {
    MapSumUpdate(LoadsBy(deals, who), h, Load(deal.tasks, who));
    assert LoadsBy(deals[h := deal], who) == LoadsBy(deals, who)[h := Load(deal.tasks, who)];
  }

  lemma OpenLoadRemove(deals: map<Hash, Deal>, h: Hash, who: Account)
    requires h in deals
    ensures OpenLoad(deals - {h}, who) == OpenLoad(deals, who) - Load(deals[h].tasks, who)
  {
    MapSumRemove(LoadsBy(deals, who), h);
    assert LoadsBy(deals - {h}, who) == LoadsBy(deals, who) - {h};
  }

  lemma {:induction false} UnknownLoad(tasks: seq<Task>, ms: Miners, who: Account)
    requires KnownTasks(tasks, ms) && who !in ms
    ensures Load(tasks, who) == 0
  {
    if tasks != [] {
      UnknownLoad(tasks[1..], ms, who);
    }
  }

  /** A whole task list moved: conservation, the same miners, and the shift in locked space of any account. */
  lemma MoveTasks(ms: Miners, move: Move, tasks: seq<Task>, who: Account)
    requires KnownTasks(tasks, ms) && MoveAll(ms, move, tasks).Some?
    ensures var ms' := MoveAll(ms, move, tasks).value;
            && ms'.Keys == ms.Keys
            && TotalHeld(ms') == TotalHeld(ms)
            && Locked(ms', who) == if move.Lock? then Locked(ms, who) + Bytes(Load(tasks, who))
                                   else Locked(ms, who) - Bytes(Load(tasks, who))
  {
    MoveAllEffect(ms, move, tasks, who);
    if who !in ms {
      UnknownLoad(tasks, ms, who);
    }
  }

  lemma AssignedIsKnown(ms: Miners, segments: seq<Segment>, chosen: seq<Candidate>)
    requires ValidChoice(ms, |segments|, chosen) && Assigned(segments, chosen).Some?
    ensures KnownTasks(Assigned(segments, chosen).value, ms)
  {
    AllocationIsExact(Capacities(Idles(chosen)), segments);
  }

  lemma KnownGrows(s: State, ms: Miners)
    requires Known(s) && s.miners.Keys <= ms.Keys
    ensures Known(s.(miners := ms))
  {
    forall h | h in s.deals ensures KnownTasks(s.deals[h].tasks, ms) {
      assert KnownTasks(s.deals[h].tasks, s.miners);
    }
    forall h | h in s.files ensures KnownInfos(AllInfos(s.files[h].segments), ms) {
      assert KnownInfos(AllInfos(s.files[h].segments), s.miners);
    }
  }

  /** What one step owes the next: good states stay good, and slack moves only by what is abandoned. */
  ghost predicate Keeps(s: State, s': State, who: Account, abandoned: nat) {
    Known(s') && Conserved(s') && Slack(s', who) == Slack(s, who) + Bytes(abandoned)
  }

  lemma DeclareKeeps(s: State, user: Account, h: Hash, segments: seq<Segment>, chosen: seq<Candidate>, who: Account)
    requires Known(s) && Conserved(s) && user in s.users && DeclareDeal(s, user, h, segments, chosen).Some?
    ensures Keeps(s, DeclareDeal(s, user, h, segments, chosen).value, who,
                  if h in s.deals then Load(s.deals[h].tasks, who) else 0)
  {
    var s' := DeclareDeal(s, user, h, segments, chosen).value;
    var tasks := Assigned(segments, chosen).value;
    AssignedIsKnown(s.miners, segments, chosen);
    MoveTasks(s.miners, Lock, tasks, who);
    KnownGrows(s, s'.miners);
    OpenLoadUpdate(s.deals, h, s'.deals[h], who);
  }

  lemma ReassignKeeps(s: State, h: Hash, count: nat, chosen: seq<Candidate>, who: Account)
    requires Known(s) && Conserved(s) && ReassignDeal(s, h, count, chosen).Some? && count < MAX_REASSIGN
    ensures Keeps(s, ReassignDeal(s, h, count, chosen).value, who, 0)
  {
    var s', deal := ReassignDeal(s, h, count, chosen).value, s.deals[h];
    var freed := MoveAll(s.miners, Unlock, deal.tasks).value;
    MoveTasks(s.miners, Unlock, deal.tasks, who);
    var tasks := Assigned(deal.segments, chosen).value;
    AssignedIsKnown(freed, deal.segments, chosen);
    MoveTasks(freed, Lock, tasks, who);
    KnownGrows(s, s'.miners);
    OpenLoadUpdate(s.deals, h, s'.deals[h], who);
  }

  lemma ExpireKeeps(s: State, h: Hash, count: nat, chosen: seq<Candidate>, who: Account)
    requires Known(s) && Conserved(s) && ReassignDeal(s, h, count, chosen).Some? && count >= MAX_REASSIGN
    ensures Keeps(s, ReassignDeal(s, h, count, chosen).value, who, 0)
  {
    MoveTasks(s.miners, Unlock, s.deals[h].tasks, who);
    KnownGrows(s, MoveAll(s.miners, Unlock, s.deals[h].tasks).value);
    OpenLoadRemove(s.deals, h, who);
  }

  lemma FinishKeeps(s: State, h: Hash, who: Account)
    requires Known(s) && Conserved(s) && FinishDeal(s, h).Some?
    ensures Keeps(s, FinishDeal(s, h).value, who, 0)
  {
    var s' := FinishDeal(s, h).value;
    MoveTasks(s.miners, Serve, s.deals[h].tasks, who);
    KnownGrows(s, s'.miners);
    OpenLoadRemove(s.deals, h, who);
    assert KnownInfos(AllInfos(s.files[h].segments), s'.miners);
  }

  lemma FireKeeps(s: State, h: Hash, chosen: seq<Candidate>, who: Account)
    requires Known(s) && Conserved(s) && h in s.scheduled
    ensures Keeps(s, Fire(s, h, chosen).value, who, 0)
  {
    var due, freed := s.scheduled[h], s.(scheduled := s.scheduled - {h});
    assert Known(freed) && Conserved(freed) && Slack(freed, who) == Slack(s, who);
    if due.Finish? {
      if FinishDeal(freed, h).Some? {
        FinishKeeps(freed, h, who);
      }
    } else if ReassignDeal(freed, h, due.count, chosen).Some? {
      if due.count < MAX_REASSIGN {
        ReassignKeeps(freed, h, due.count, chosen, who);
      } else {
        ExpireKeeps(freed, h, due.count, chosen, who);
      }
    }
  }

  ghost predicate KnownHolders(hs: seq<Holder>, ms: Miners) {
    forall j :: 0 <= j < |hs| ==> hs[j].miner in ms
  }

  lemma {:induction false} RecordIsKnown(fragments: seq<Hash>, hs: seq<Holder>, marked: seq<Account>,
                                         exclusive: bool, ms: Miners)
    requires KnownHolders(hs, ms)
    ensures var r := Record(fragments, hs, marked, exclusive); KnownInfos(r.infos, ms) && KnownHolders(r.holders, ms)
    decreases |fragments|
  {
    if fragments != [] {
      var at := FindHolder(hs, fragments[0], marked, exclusive);
      if at.None? {
        RecordIsKnown(fragments[1..], hs, marked, exclusive, ms);
      } else {
        RecordIsKnown(fragments[1..], Take(hs, at.value, fragments[0]), marked + [hs[at.value].miner], exclusive, ms);
      }
    }
  }

  lemma {:induction false} FileIsKnown(deal: seq<Segment>, hs: seq<Holder>, exclusive: bool, ms: Miners)
    requires KnownHolders(hs, ms)
    ensures KnownInfos(AllInfos(RecordFile(deal, hs, [], exclusive)), ms)
    decreases |deal|
  {
    if deal != [] {
      var r := Record(deal[0].fragments, hs, [], exclusive);
      RecordIsKnown(deal[0].fragments, hs, [], exclusive, ms);
      FileIsKnown(deal[1..], r.holders, exclusive, ms);
      assert RecordFile(deal, hs, [], exclusive)[1..] == RecordFile(deal[1..], r.holders, [], exclusive);
    }
  }

  lemma CompleteKeeps(s: State, h: Hash, deal: Deal, who: Account)
    requires Known(s) && Conserved(s) && h in s.deals && deal.tasks == s.deals[h].tasks
    requires CompleteDeal(s, h, deal).Some?
    ensures Keeps(s, CompleteDeal(s, h, deal).value, who, 0)
  {
    OpenLoadUpdate(s.deals, h, deal.(stage := 2), who);
    FileIsKnown(deal.segments, Holders(deal.tasks), |deal.tasks| == MINER_COUNT, s.miners);
  }

  lemma ReportOneKeeps(s: State, reporter: Account, h: Hash, who: Account)
    requires Known(s) && Conserved(s) && ReportOne(s, reporter, h).Some?
    ensures Keeps(s, ReportOne(s, reporter, h).value, who, 0)
  {
    if h in s.deals && Assignee(s.deals[h].tasks, reporter) {
      var deal := s.deals[h];
      var complete := if reporter in deal.complete then deal.complete else deal.complete + [reporter];
      var reported := deal.(complete := complete);
      if |reported.complete| == |deal.tasks| {
        CompleteKeeps(s, h, reported, who);
      } else {
        OpenLoadUpdate(s.deals, h, reported, who);
      }
    }
  }

  lemma {:induction false} ReportKeeps(s: State, reporter: Account, hashes: seq<Hash>, who: Account)
    requires Known(s) && Conserved(s) && Report(s, reporter, hashes).Some?
    ensures Keeps(s, Report(s, reporter, hashes).value, who, 0)
    decreases |hashes|
  {
    if hashes != [] {
      ReportOneKeeps(s, reporter, hashes[0], who);
      ReportKeeps(ReportOne(s, reporter, hashes[0]).value, reporter, hashes[1..], who);
    }
  }

  /** Taking service space for known fragments takes exactly their size. */
  lemma {:induction false} TakeServiceEffect(ms: Miners, infos: seq<FragmentInfo>, who: Account)
    requires KnownInfos(infos, ms) && TakeService(ms, infos).Some?
    ensures var ms' := TakeService(ms, infos).value;
            && ms'.Keys == ms.Keys
            && TotalHeld(ms') == TotalHeld(ms) - Bytes(|infos|)
            && Locked(ms', who) == Locked(ms, who)
    decreases |infos|
  {
    if infos != [] {
      var m := ms[infos[0].miner];
      var m' := m.(service := m.service - FRAGMENT_SIZE);
      HeldUpdate(ms, infos[0].miner, m');
      TakeServiceEffect(ms[infos[0].miner := m'], infos[1..], who);
    }
  }

  lemma LastOwnerKeeps(s: State, h: Hash, owner: Account, who: Account)
    requires Known(s) && Conserved(s) && h in s.files && RemoveLastOwner(s, h, owner).Some?
    ensures Keeps(s, RemoveLastOwner(s, h, owner).value, who, 0)
  {
    var infos := AllInfos(s.files[h].segments);
    assert KnownInfos(infos, s.miners);
    TakeServiceEffect(s.miners, infos, who);
    KnownGrows(s, TakeService(s.miners, infos).value);
  }

  lemma OwnerKeeps(s: State, h: Hash, owner: Account, who: Account)
    requires Known(s) && Conserved(s) && RemoveOwner(s, h, owner).Some?
    ensures Keeps(s, RemoveOwner(s, h, owner).value, who, 0)
  {
    assert KnownInfos(AllInfos(s.files[h].segments), s.miners);
  }

  lemma {:induction false} OwnersKeep(s: State, h: Hash, owner: Account, owners: seq<Account>, who: Account)
    requires Known(s) && Conserved(s) && RemoveOwners(s, h, owner, owners).Some?
    ensures Keeps(s, RemoveOwners(s, h, owner, owners).value, who, 0)
    decreases |owners|
  {
    if owners != [] {
      if owners[0] == owner {
        OwnerKeeps(s, h, owner, who);
        OwnersKeep(RemoveOwner(s, h, owner).value, h, owner, owners[1..], who);
      } else {
        OwnersKeep(s, h, owner, owners[1..], who);
      }
    }
  }

  lemma {:induction false} DeleteKeeps(s: State, owner: Account, hashes: seq<Hash>, bucket: bool, who: Account)
    requires Known(s) && Conserved(s) && Delete(s, owner, hashes, bucket).Some?
    ensures Keeps(s, Delete(s, owner, hashes, bucket).value, who, 0)
    decreases |hashes|
  {
    if hashes != [] {
      var h := hashes[0];
      var r := if bucket then EmptyOne(s, h, owner) else DeleteOne(s, h, owner);
      if |s.files[h].owners| > 1 {
        if bucket {
          OwnerKeeps(s, h, owner, who);
        } else {
          OwnersKeep(s, h, owner, s.files[h].owners, who);
        }
      } else if bucket || s.files[h].owners == [owner] {
        LastOwnerKeeps(s, h, owner, who);
      }
      DeleteKeeps(r.value, owner, hashes[1..], bucket, who);
    }
  }

  lemma {:induction false} RewriteIsKnown(infos: seq<FragmentInfo>, f: Hash, from: Account, info: FragmentInfo,
                                          ms: Miners)
    requires KnownInfos(infos, ms) && (info.miner in ms || info.miner == from) && Rewrite(infos, f, from, info).Some?
    ensures from in ms && KnownInfos(Rewrite(infos, f, from, info).value, ms)
  {
    if !(infos[0].hash == f && infos[0].miner == from) {
      RewriteIsKnown(infos[1..], f, from, info, ms);
    }
  }

  lemma {:induction false} RewriteFileIsKnown(segments: seq<SegmentInfo>, f: Hash, from: Account, info: FragmentInfo,
                                              ms: Miners)
    requires KnownInfos(AllInfos(segments), ms) && (info.miner in ms || info.miner == from)
    requires RewriteFile(segments, f, from, info).Some?
    ensures from in ms && KnownInfos(AllInfos(RewriteFile(segments, f, from, info).value), ms)
  {
    var first, rest := segments[0].fragments, AllInfos(segments[1..]);
    assert AllInfos(segments) == first + rest;
    assert KnownInfos(first, ms) by {
      assert forall i :: 0 <= i < |first| ==> first[i] == AllInfos(segments)[i];
    }
    assert KnownInfos(rest, ms) by {
      assert forall i :: 0 <= i < |rest| ==> rest[i] == AllInfos(segments)[|first| + i];
    }
    var written := RewriteFile(segments, f, from, info).value;
    if Rewrite(first, f, from, info).Some? {
      RewriteIsKnown(first, f, from, info, ms);
      assert written[1..] == segments[1..];
    } else {
      RewriteFileIsKnown(segments[1..], f, from, info, ms);
      assert written[1..] == RewriteFile(segments[1..], f, from, info).value;
    }
  }

  lemma GenerateOrderKeeps(s: State, miner: Account, file: Hash, f: Hash, who: Account)
    requires Known(s) && Conserved(s) && GenerateOrder(s, miner, file, f).Some?
    ensures Keeps(s, GenerateOrder(s, miner, file, f).value, who, 0)
  {
    assert KnownInfos(AllInfos(s.files[file].segments), s.miners);
    RewriteFileIsKnown(s.files[file].segments, f, miner, FragmentInfo(f, false, miner), s.miners);
  }

  /** One fragment's service space passes from one miner to another. */
  lemma ServicePasses(ms: Miners, f: Hash, from: Account, to: Account, who: Account)
    requires from in ms && to in ms && TakeService(ms, [FragmentInfo(f, true, from)]).Some?
    ensures var taken := TakeService(ms, [FragmentInfo(f, true, from)]).value;
            && to in taken
            && var ms' := taken[to := taken[to].(service := taken[to].service + FRAGMENT_SIZE)];
               ms'.Keys == ms.Keys && TotalHeld(ms') == TotalHeld(ms) && Locked(ms', who) == Locked(ms, who)
  {
    var info := [FragmentInfo(f, true, from)];
    TakeServiceEffect(ms, info, who);
    var taken := TakeService(ms, info).value;
    HeldUpdate(taken, to, taken[to].(service := taken[to].service + FRAGMENT_SIZE));
  }

  lemma FileIsKnownToo(s: State, h: Hash, file: File)
    requires Known(s) && KnownInfos(AllInfos(file.segments), s.miners)
    ensures Known(s.(files := s.files[h := file]))
  {
  }

  lemma RestoreKeeps(s: State, miner: Account, f: Hash, order: Order, who: Account)
    requires Known(s) && Conserved(s) && miner in s.miners && Restore(s, miner, f, order).Some?
    ensures Keeps(s, Restore(s, miner, f, order).value, who, 0)
  {
    if order.file in s.files {
      var segments, info := s.files[order.file].segments, FragmentInfo(f, true, miner);
      assert KnownInfos(AllInfos(segments), s.miners);
      if RewriteFile(segments, f, order.origin, info).Some? {
        var s' := Restore(s, miner, f, order).value;
        RewriteFileIsKnown(segments, f, order.origin, info, s.miners);
        ServicePasses(s.miners, f, order.origin, miner, who);
        FileIsKnownToo(s, order.file, s'.files[order.file]);
        KnownGrows(s.(files := s'.files), s'.miners);
      }
    }
  }

  lemma CompleteOrderKeeps(s: State, miner: Account, f: Hash, now: nat, who: Account)
    requires Known(s) && Conserved(s) && CompleteOrder(s, miner, f, now).Some?
    ensures Keeps(s, CompleteOrder(s, miner, f, now).value, who, 0)
  {
    RestoreKeeps(s.(orders := s.orders - {f}), miner, f, s.orders[f], who);
  }

  /** Changing one miner's idle space, with the global counter. */
  lemma IdleKeeps(s: State, miner: Account, idle: nat, totalIdle: nat, who: Account)
    requires Known(s) && Conserved(s) && miner in s.miners
    requires totalIdle + s.miners[miner].idle == s.totalIdle + idle
    ensures Keeps(s, s.(miners := s.miners[miner := s.miners[miner].(idle := idle)], totalIdle := totalIdle), who, 0)
  {
    HeldUpdate(s.miners, miner, s.miners[miner].(idle := idle));
    KnownGrows(s, s.miners[miner := s.miners[miner].(idle := idle)]);
  }

  /** Changing a miner without changing its space. */
  lemma MinerKeeps(s: State, miner: Account, m: Miner, who: Account)
    requires Known(s) && Conserved(s)
    requires m.Held() == (if miner in s.miners then s.miners[miner].Held() else 0)
    requires m.locked == Locked(s.miners, miner)
    ensures Keeps(s, s.(miners := s.miners[miner := m]), who, 0)
  {
    HeldUpdate(s.miners, miner, m);
    KnownGrows(s, s.miners[miner := m]);
  }

  /** What a call abandons: the load of an open deal that a new declaration of the same file replaces. */
  function Abandons(s: State, e: Event, who: Account): nat {
    if e.EvDeclare? && Step(s, e).Some? && e.hash !in s.files && e.hash in s.deals
    then Load(s.deals[e.hash].tasks, who) else 0
  }

  lemma UploadKeeps(s: State, miner: Account, hashes: seq<Hash>, who: Account)
    requires Known(s) && Conserved(s) && UploadFiller(s, miner, hashes).Some?
    ensures Keeps(s, UploadFiller(s, miner, hashes).value, who, 0)
  {
    IdleKeeps(s, miner, s.miners[miner].idle + Bytes(|hashes|), s.totalIdle + Bytes(|hashes|), who);
  }

  lemma DeleteFillerKeeps(s: State, miner: Account, h: Hash, who: Account)
    requires Known(s) && Conserved(s) && DeleteFiller(s, miner, h).Some?
    ensures Keeps(s, DeleteFiller(s, miner, h).value, who, 0)
  {
    IdleKeeps(s, miner, s.miners[miner].idle - FRAGMENT_SIZE, s.totalIdle - FRAGMENT_SIZE, who);
  }

  lemma MinerEventKeeps(s: State, e: Event, who: Account)
    requires Known(s) && Conserved(s) && Step(s, e).Some? && (e.EvRegister? || e.EvSetState?)
    ensures Keeps(s, Step(s, e).value, who, 0)
  {
    MinerKeeps(s, e.who, Step(s, e).value.miners[e.who], who);
  }

  /** Users and orders are not part of the books. */
  lemma OthersKeep(s: State, users: map<Account, US.Space>, orders: map<Hash, Order>, who: Account)
    requires Known(s) && Conserved(s)
    ensures Keeps(s, s.(users := users, orders := orders), who, 0)
  {
  }

  lemma {:induction false} TakeServiceKeys(ms: Miners, infos: seq<FragmentInfo>)
    ensures var r := TakeService(ms, infos); r.Some? ==> r.value.Keys == ms.Keys
    decreases |infos|
  {
    if infos != [] && infos[0].miner !in ms {
      TakeServiceKeys(ms, infos[1..]);
    } else if infos != [] && ms[infos[0].miner].service >= FRAGMENT_SIZE {
      var m := ms[infos[0].miner];
      TakeServiceKeys(ms[infos[0].miner := m.(service := m.service - FRAGMENT_SIZE)], infos[1..]);
    }
  }

  lemma {:induction false} DeleteKeepsKeys(s: State, owner: Account, hashes: seq<Hash>, bucket: bool)
    ensures var r := Delete(s, owner, hashes, bucket); r.Some? ==> r.value.miners.Keys == s.miners.Keys
    decreases |hashes|
  {
    if hashes != [] {
      var r := if bucket then EmptyOne(s, hashes[0], owner) else DeleteOne(s, hashes[0], owner);
      if r.Some? {
        var file := s.files[hashes[0]];
        OwnersKeepMiners(s, hashes[0], owner, file.owners);
        TakeServiceKeys(s.miners, AllInfos(file.segments));
        DeleteKeepsKeys(r.value, owner, hashes[1..], bucket);
      }
    }
  }

  lemma {:induction false} OwnersKeepMiners(s: State, h: Hash, who: Account, owners: seq<Account>)
    ensures var r := RemoveOwners(s, h, who, owners); r.Some? ==> r.value.miners == s.miners
    decreases |owners|
  {
    if owners != [] {
      var r := if owners[0] == who then RemoveOwner(s, h, who) else Some(s);
      if r.Some? {
        OwnersKeepMiners(r.value, h, who, owners[1..]);
      }
    }
  }

  lemma {:induction false} ReportKeepsMiners(s: State, who: Account, hashes: seq<Hash>)
    ensures var r := Report(s, who, hashes); r.Some? ==> r.value.miners == s.miners
    decreases |hashes|
  {
    if hashes != [] && ReportOne(s, who, hashes[0]).Some? {
      ReportKeepsMiners(ReportOne(s, who, hashes[0]).value, who, hashes[1..]);
    }
  }

  lemma DueKeepsKeys(s: State, h: Hash, due: Pending, chosen: seq<Candidate>)
    ensures var r := if due.Reassign? then ReassignDeal(s, h, due.count, chosen) else FinishDeal(s, h);
            r.Some? ==> r.value.miners.Keys == s.miners.Keys
  {
    if h in s.deals {
      var deal, move := s.deals[h], if due.Reassign? then Unlock else Serve;
      var freed := MoveAll(s.miners, move, deal.tasks);
      if freed.Some? {
        MoveAllEffect(s.miners, move, deal.tasks, 0);
        if due.Reassign? && due.count < MAX_REASSIGN && ValidChoice(freed.value, |deal.segments|, chosen) {
          var tasks := Assigned(deal.segments, chosen);
          if tasks.Some? && MoveAll(freed.value, Lock, tasks.value).Some? {
            MoveAllEffect(freed.value, Lock, tasks.value, 0);
          }
        }
      }
    }
  }

  /** Miners come by registering and never go. */
  lemma KeysKept(s: State, e: Event)
    requires Step(s, e).Some?
    ensures Step(s, e).value.miners.Keys == s.miners.Keys + if e.EvRegister? then {e.who} else {}
  {
    match e
    case EvDeclare(user, h, segments, chosen) =>
      if h !in s.files {
        MoveAllEffect(s.miners, Lock, Assigned(segments, chosen).value, 0);
      }
    case EvFire(h, chosen) => DueKeepsKeys(s.(scheduled := s.scheduled - {h}), h, s.scheduled[h], chosen);
    case EvReport(miner, hashes) => ReportKeepsMiners(s, miner, hashes);
    case EvDelete(owner, hashes, bucket) => DeleteKeepsKeys(s, owner, hashes, bucket);
    case EvCompleteOrder(miner, f, now) => RestoreKeepsKeys(s.(orders := s.orders - {f}), miner, f, s.orders[f]);
    case _ =>
  }

  lemma RestoreKeepsKeys(s: State, miner: Account, f: Hash, order: Order)
    requires Restore(s, miner, f, order).Some? && miner in s.miners
    ensures Restore(s, miner, f, order).value.miners.Keys == s.miners.Keys
  {
    TakeServiceKeys(s.miners, [FragmentInfo(f, true, order.origin)]);
  }

  lemma JoinKeeps(s: State, user: Account, h: Hash, segments: seq<Segment>, chosen: seq<Candidate>, who: Account)
    requires Known(s) && Conserved(s) && h in s.files && Declare(s, user, h, segments, chosen).Some?
    ensures Keeps(s, Declare(s, user, h, segments, chosen).value, who, 0)
  {
    assert KnownInfos(AllInfos(s.files[h].segments), s.miners);
  }

  /** Calls that touch neither deals nor files. */
  lemma PlainKeeps(s: State, e: Event, who: Account)
    requires Known(s) && Conserved(s) && Step(s, e).Some?
    requires !e.EvDeclare? && !e.EvFire? && !e.EvReport? && !e.EvDelete? && !e.EvGenerateOrder? && !e.EvCompleteOrder?
    ensures Keeps(s, Step(s, e).value, who, 0)
  {
    var s' := Step(s, e).value;
    if e.EvUploadFiller? {
      UploadKeeps(s, e.who, e.hashes, who);
    } else if e.EvDeleteFiller? {
      DeleteFillerKeeps(s, e.who, e.hash, who);
    } else if e.EvRegister? || e.EvSetState? {
      MinerEventKeeps(s, e, who);
    } else {
      OthersKeep(s, s'.users, s'.orders, who);
    }
  }

  lemma NextKeeps(s: State, e: Event, who: Account)
    requires Known(s) && Conserved(s)
    ensures Keeps(s, Next(s, e), who, Abandons(s, e, who))
  {
    if Step(s, e).Some? {
      match e
      case EvDeclare(user, h, segments, chosen) =>
        if h in s.files {
          JoinKeeps(s, user, h, segments, chosen, who);
        } else {
          DeclareKeeps(s, user, h, segments, chosen, who);
        }
      case EvFire(h, chosen) => FireKeeps(s, h, chosen, who);
      case EvReport(miner, hashes) => ReportKeeps(s, miner, hashes, who);
      case EvDelete(owner, hashes, bucket) => DeleteKeeps(s, owner, hashes, bucket, who);
      case EvGenerateOrder(miner, file, h) => GenerateOrderKeeps(s, miner, file, h, who);
      case EvCompleteOrder(miner, h, now) => CompleteOrderKeeps(s, miner, h, now, who);
      case _ => PlainKeeps(s, e, who);
    }
  }

  function Abandoned(s: State, es: seq<Event>, who: Account): nat
    decreases |es|
  {
    if es == [] then 0 else Abandons(s, es[0], who) + Abandoned(Next(s, es[0]), es[1..], who)
  }

  /** Over any run the books stay conserved and slack grows by what was abandoned, miner by miner. */
  lemma {:induction false} RunKeeps(s: State, es: seq<Event>, who: Account)
    requires Known(s) && Conserved(s)
    ensures Keeps(s, Run(s, es), who, Abandoned(s, es, who))
    decreases |es|
  {
    if es != [] {
      NextKeeps(s, es[0], who);
      RunKeeps(Next(s, es[0]), es[1..], who);
    }
  }

  /** No miner, user, deal, file or order yet. */
  predicate IsGenesis(s: State) {
    && s.miners == map[] && s.users == map[] && s.deals == map[] && s.files == map[] && s.orders == map[]
    && s.fillers == {} && s.scheduled == map[] && s.totalIdle == s.totalService == 0
  }

  lemma GenesisIsGood(s: State, who: Account)
    requires IsGenesis(s)
    ensures Known(s) && Conserved(s) && Slack(s, who) == 0
  {
    assert HeldBy(s.miners) == map[];
    assert LoadsBy(s.deals, who) == map[];
  }

  /**
   * Network space is conserved: in every run without exits, total idle plus total service space equals the sum over
   * miners of idle, locked and service space.
   */
  lemma SpaceIsConserved(s: State, es: seq<Event>)
    requires IsGenesis(s)
    ensures Run(s, es).totalIdle + Run(s, es).totalService == TotalHeld(Run(s, es).miners)
  {
    GenesisIsGood(s, 0);
    RunKeeps(s, es, 0);
  }

  /**
   * Locked space matches open deals: in every run a miner's locked space is the size of its fragments over all open
   * deals plus those of replaced deals; so it matches the open deals exactly when no loaded deal was replaced.
   */
  lemma LockedMatchesDeals(s: State, es: seq<Event>, who: Account)
    requires IsGenesis(s)
    ensures Locked(Run(s, es).miners, who) == Bytes(OpenLoad(Run(s, es).deals, who) + Abandoned(s, es, who))
  {
    GenesisIsGood(s, who);
    RunKeeps(s, es, who);
  }

  /** Enough space is locked for every open deal, so unlocking it never underflows. */
  lemma OpenDealUnlocks(s: State, h: Hash, move: Move)
    requires Known(s) && h in s.deals && !move.Lock?
    requires forall a :: a in s.miners ==> Slack(s, a) >= 0
    ensures MoveAll(s.miners, move, s.deals[h].tasks).Some?
  {
    var tasks := s.deals[h].tasks;
    forall a | a in s.miners ensures Bytes(Load(tasks, a)) <= s.miners[a].locked {
      assert Slack(s, a) >= 0;
      OpenLoadUpdate(s.deals, h, s.deals[h], a);
    }
    UnlockSucceeds(s.miners, move, tasks);
  }

  /** So unlocking at reassignment, expiry or completion never underflows, in any run. */
  lemma UnlockNeverUnderflows(s: State, es: seq<Event>, h: Hash, move: Move)
    requires IsGenesis(s) && h in Run(s, es).deals && !move.Lock?
    ensures MoveAll(Run(s, es).miners, move, Run(s, es).deals[h].tasks).Some?
  {
    var s' := Run(s, es);
    GenesisIsGood(s, 0);
    RunKeeps(s, es, 0);
    forall a | a in s'.miners ensures Slack(s', a) >= 0 {
      GenesisIsGood(s, a);
      RunKeeps(s, es, a);
    }
    OpenDealUnlocks(s', h, move);
  }

  /** Nor does locking fail: whatever miners the choice yields, a successful assignment fits their idle space. */
  lemma LockNeverFails(ms: Miners, segments: seq<Segment>, chosen: seq<Candidate>)
    requires ValidChoice(ms, |segments|, chosen) && Assigned(segments, chosen).Some?
    ensures MoveAll(ms, Lock, Assigned(segments, chosen).value).Some?
  {
    var placed := PlaceAll(Empty(|chosen|), Capacities(Idles(chosen)), segments).value;
    AllocationIsExact(Capacities(Idles(chosen)), segments);
    var tasks := TaskList(chosen, placed);
    forall i | 0 <= i < |tasks| ensures Bytes(|tasks[i].fragments|) < ms[tasks[i].miner].idle {
      LocksFit(chosen, segments, placed, i);
    }
    LocksSucceed(ms, tasks);
  }

  lemma {:induction false} LocksSucceed(ms: Miners, tasks: seq<Task>)
    requires forall i, j :: 0 <= i < j < |tasks| ==> tasks[i].miner != tasks[j].miner
    requires forall i :: 0 <= i < |tasks| ==>
               tasks[i].miner in ms && Bytes(|tasks[i].fragments|) < ms[tasks[i].miner].idle
    ensures MoveAll(ms, Lock, tasks).Some?
    decreases |tasks|
  {
    if tasks != [] {
      LocksSucceed(MoveSpace(ms, Lock, tasks[0].miner, Bytes(|tasks[0].fragments|)).value, tasks[1..]);
    }
  }
}

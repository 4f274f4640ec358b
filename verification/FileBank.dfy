/** The deal calls as the pallet runs them: step by step on storage, rolled back as a whole when a step fails. */
module FileBank {
  import opened Base
  import opened Allocation
  import opened Placement
  import opened Deals
  import opened Completion
  import US = UserSpace

  // ----- Rewriting one fragment of a file record in place

  function Behind<T>(done: seq<T>, rest: Option<seq<T>>): Option<seq<T>> {
    if rest.None? then None else Some(done + rest.value)
  }

  lemma BehindNothing<T>(s: seq<T>, rest: Option<seq<T>>)
    ensures s[0..] == s && Behind(s[..0], rest) == rest
  {
    assert rest.Some? ==> s[..0] + rest.value == rest.value;
  }

  method RewriteFragments(infos: seq<FragmentInfo>, f: Hash, from: Account, info: FragmentInfo)
    returns (r: Option<seq<FragmentInfo>>)
    ensures r == Rewrite(infos, f, from, info)
  {
    BehindNothing(infos, Rewrite(infos, f, from, info));
    for i := 0 to |infos|
      invariant Rewrite(infos, f, from, info) == Behind(infos[..i], Rewrite(infos[i..], f, from, info))
    {
      RewriteSplits(infos, i, f, from, info);
      if infos[i].hash == f && infos[i].miner == from {
        return Some(infos[i := info]);
      }
    }
    r := None;
  }

  lemma RewriteSplits(infos: seq<FragmentInfo>, i: nat, f: Hash, from: Account, info: FragmentInfo)
    requires i < |infos|
    ensures Behind(infos[..i], Rewrite(infos[i..], f, from, info))
         == if infos[i].hash == f && infos[i].miner == from then Some(infos[i := info])
            else Behind(infos[..i + 1], Rewrite(infos[i + 1..], f, from, info))
  {
    assert infos[i..][1..] == infos[i + 1..];
    var rest := Rewrite(infos[i + 1..], f, from, info);
    if infos[i].hash == f && infos[i].miner == from {
      assert infos[..i] + ([info] + infos[i + 1..]) == infos[i := info];
    } else if rest.Some? {
      assert infos[..i] + ([infos[i]] + rest.value) == infos[..i + 1] + rest.value;
    }
  }

  /** Rewrites the first entry of a fragment on a miner, in the first segment that has one. */
  method RewriteSegments(segments: seq<SegmentInfo>, f: Hash, from: Account, info: FragmentInfo)
    returns (r: Option<seq<SegmentInfo>>)
    ensures r == RewriteFile(segments, f, from, info)
  {
    BehindNothing(segments, RewriteFile(segments, f, from, info));
    for i := 0 to |segments|
      invariant RewriteFile(segments, f, from, info) == Behind(segments[..i], RewriteFile(segments[i..], f, from, info))
    {
      var here := RewriteFragments(segments[i].fragments, f, from, info);
      SegmentsSplit(segments, i, f, from, info);
      if here.Some? {
        return Some(segments[i := segments[i].(fragments := here.value)]);
      }
    }
    r := None;
  }

  lemma SegmentsSplit(segments: seq<SegmentInfo>, i: nat, f: Hash, from: Account, info: FragmentInfo)
    requires i < |segments|
    ensures var here := Rewrite(segments[i].fragments, f, from, info);
            Behind(segments[..i], RewriteFile(segments[i..], f, from, info))
            == if here.Some? then Some(segments[i := segments[i].(fragments := here.value)])
               else Behind(segments[..i + 1], RewriteFile(segments[i + 1..], f, from, info))
  {
    assert segments[i..][1..] == segments[i + 1..];
    var here, rest := Rewrite(segments[i].fragments, f, from, info), RewriteFile(segments[i + 1..], f, from, info);
    if here.Some? {
      var first := segments[i].(fragments := here.value);
      assert segments[..i] + ([first] + segments[i + 1..]) == segments[i := first];
    } else if rest.Some? {
      assert segments[..i] + ([segments[i]] + rest.value) == segments[..i + 1] + rest.value;
    }
  }

  // ----- The calls

  /** The books are sane, and the registry lists every miner once. */
  ghost predicate InOrder(s: State, registry: seq<Account>) {
    Sane(s) && Distinct(registry) && forall a :: a in registry <==> a in s.miners
  }

  lemma GenesisInOrder(s: State)
    requires IsGenesis(s)
    ensures InOrder(s, [])
  {
    GenesisIsSane(s);
  }

  lemma NextInOrder(s: State, registry: seq<Account>, e: Event)
    requires InOrder(s, registry) && !e.EvRegister?
    ensures InOrder(Next(s, e), registry)
  {
    SaneNext(s, e);
    if Step(s, e).Some? {
      KeysKept(s, e);
      assert forall a :: a in Next(s, e).miners <==> a in Next(s, e).miners.Keys;
    }
  }

  method EmptyChain() returns (s: State, registry: seq<Account>)
    ensures IsGenesis(s) && InOrder(s, registry)
  {
    s, registry := State(map[], map[], map[], {}, map[], map[], map[], 0, 0), [];
    GenesisInOrder(s);
  }

  /** Every call keeps the books sane and does what the model's event does; the calls due later rely on it. */
  class Pallet {
    var st: State
    /** All registered miners, in order of registration. */
    var registry: seq<Account>

    ghost predicate Valid()
      reads this
    {
      InOrder(st, registry)
    }

    constructor ()
      ensures Valid() && IsGenesis(st)
    {
      var s, miners := EmptyChain();
      st := s;
      registry := miners;
    }

    method RegisterMiner(who: Account) returns (ok: bool)
      requires Valid()
      modifies this
      ensures Valid() && st == Next(old(st), EvRegister(who))
      ensures ok <==> who !in old(registry)
    {
      if who in st.miners {
        return false;
      }
      SaneNext(st, EvRegister(who));
      registry := registry + [who];
      st := st.(miners := st.miners[who := Miner(true, 0, 0, 0)]);
      return true;
    }

    /** Locks, unlocks or converts the space of every task in turn. */
    method MoveSpaces(move: Move, tasks: seq<Task>) returns (ok: bool)
      modifies this`st
      ensures ok <==> MoveAll(old(st.miners), move, tasks).Some?
      ensures ok ==> st == old(st).(miners := MoveAll(old(st.miners), move, tasks).value)
    {
      ghost var all := MoveAll(st.miners, move, tasks);
      for i := 0 to |tasks|
        invariant st == old(st).(miners := st.miners)
        invariant all == MoveAll(st.miners, move, tasks[i..])
      {
        assert tasks[i..][1..] == tasks[i + 1..];
        var moved := MoveSpace(st.miners, move, tasks[i].miner, Bytes(|tasks[i].fragments|));
        if moved.None? {
          return false;
        }
        st := st.(miners := moved.value);
      }
      return true;
    }

    function Views(): map<Account, MinerView>
      reads this
    {
      map a | a in st.miners :: MinerView(st.miners[a].positive, st.miners[a].idle)
    }

    /** Chooses miners at random, assigns them the fragments and locks their space. */
    method RandomAssignMiner(needed: seq<Segment>, random: nat -> nat)
      returns (tasks: Option<seq<Task>>, ghost chosen: seq<Candidate>)
      requires Distinct(registry) && WellFormed(needed)
      modifies this`st
      ensures tasks.Some? ==>
                && ValidChoice(old(st.miners), |needed|, chosen)
                && Assigned(needed, chosen) == tasks
                && MoveAll(old(st.miners), Lock, tasks.value).Some?
                && st == old(st).(miners := MoveAll(old(st.miners), Lock, tasks.value).value)
      ensures tasks.None? ==> st == old(st) && (chosen != [] ==> Assigned(needed, chosen).None?)
    {
      var selected := SelectMiners(registry, Views(), |needed|, random);
      if selected.Err? {
        return None, [];
      }
      chosen := selected.value;
      assert ValidChoice(st.miners, |needed|, chosen);
      var placed := AssignFragments(needed, Idles(selected.value));
      if placed.Err? {
        return None, chosen;
      }
      AllocationIsExact(Capacities(Idles(selected.value)), needed);
      LockNeverFails(st.miners, needed, chosen);
      var list := TaskList(selected.value, placed.value);
      var ok := MoveSpaces(Lock, list);
      tasks := Some(list);
    }

    /**
     * Joins an existing file, or locks user space, opens a deal and schedules its deadline. A well-formed declaration
     * with enough space fails only for a frozen lease, a name still scheduled, or for want of miners.
     */
    method UploadDeclaration(user: Account, h: Hash, segments: seq<Segment>, random: nat -> nat)
      returns (ok: bool, ghost chosen: seq<Candidate>)
      requires Valid()
      modifies this`st
      ensures Valid() && st == Next(old(st), EvDeclare(user, h, segments, chosen))
      ensures ok <==> Step(old(st), EvDeclare(user, h, segments, chosen)).Some?
      ensures ok ==> && WellFormed(segments) && user in old(st).users && !old(st).users[user].frozen
                     && Needed(|segments|) < old(st).users[user].remaining
                     && (h in old(st).files || h !in old(st).scheduled)
      ensures && !ok && WellFormed(segments)
              && user in old(st).users && Needed(|segments|) < old(st).users[user].remaining ==>
                || old(st).users[user].frozen
                || (h !in old(st).files && (h in old(st).scheduled || chosen == [] || Assigned(segments, chosen).None?))
    {
      ok, chosen := DeclareFile(user, h, segments, random);
      NextInOrder(old(st), registry, EvDeclare(user, h, segments, chosen));
    }

    method DeclareFile(user: Account, h: Hash, segments: seq<Segment>, random: nat -> nat)
      returns (ok: bool, ghost chosen: seq<Candidate>)
      requires Distinct(registry)
      modifies this`st
      ensures var r := Declare(old(st), user, h, segments, chosen);
              ok == r.Some? && st == if ok then r.value else old(st)
      ensures && !ok && WellFormed(segments)
              && user in old(st).users && Needed(|segments|) < old(st).users[user].remaining ==>
                || old(st).users[user].frozen
                || (h !in old(st).files && (h in old(st).scheduled || chosen == [] || Assigned(segments, chosen).None?))
    {
      var saved := st;
      chosen := [];
      if !WellFormed(segments) || user !in st.users || st.users[user].remaining <= Needed(|segments|) {
        return false, chosen;
      }
      if h in st.files {
        ok := JoinFile(user, h, |segments|);
        return;
      }
      var space := US.Lock(st.users[user], Needed(|segments|));
      if space.None? {
        return false, chosen;
      }
      var tasks;
      tasks, chosen := RandomAssignMiner(segments, random);
      if tasks.None? || h in st.scheduled {
        st := saved;
        return false, chosen;
      }
      st := st.(users := st.users[user := space.value],
                scheduled := st.scheduled[h := Reassign(1)],
                deals := st.deals[h := Deal(segments, tasks.value, user, [], 1, 0)]);
      return true, chosen;
    }

    method JoinFile(user: Account, h: Hash, segments: nat) returns (ok: bool)
      requires h in st.files && user in st.users
      modifies this`st
      ensures var r, file := US.Use(old(st).users[user], Needed(segments)), old(st).files[h];
              && ok == r.Some?
              && st == if ok then old(st).(users := old(st).users[user := r.value],
                                           files := old(st).files[h := file.(owners := file.owners + [user])])
                       else old(st)
    {
      var space := US.Use(st.users[user], Needed(segments));
      if space.None? {
        return false;
      }
      st := st.(users := st.users[user := space.value],
                files := st.files[h := st.files[h].(owners := st.files[h].owners + [user])]);
      return true;
    }

    /** The scheduler makes the call due under a deal's name; a failing one is rolled back. */
    method RunDue(h: Hash, random: nat -> nat) returns (ghost chosen: seq<Candidate>)
      requires Valid()
      modifies this`st
      ensures Valid() && st == Next(old(st), EvFire(h, chosen))
    {
      chosen := [];
      if h in st.scheduled {
        var due := st.scheduled[h];
        FreedIsSane(st, h);
        st := st.(scheduled := st.scheduled - {h});
        var ok;
        if due.Reassign? {
          ok, chosen := DealReassignMiner(h, due.count, random);
        } else {
          ok := CalculateEnd(h);
        }
      }
      NextInOrder(old(st), registry, EvFire(h, chosen));
    }

    /**
     * A deal past its deadline: frees the miners, then finds new ones or, after five rounds, ends the deal. Freeing
     * the old miners never fails: only new ones or the user's locked space can be missing.
     */
    method DealReassignMiner(h: Hash, count: nat, random: nat -> nat) returns (ok: bool, ghost chosen: seq<Candidate>)
      requires Valid()
      modifies this`st
      ensures ok <==> h in old(st).deals && var deal := old(st).deals[h];
                      if count < MAX_REASSIGN then chosen != [] && Assigned(deal.segments, chosen).Some?
                      else Needed(|deal.segments|) <= UserLocked(old(st), deal.user)
      ensures ok == ReassignDeal(old(st), h, count, chosen).Some?
      ensures st == if ok then ReassignDeal(old(st), h, count, chosen).value else old(st)
    {
      if h !in st.deals {
        return false, [];
      }
      assert StagedAt(st, h);
      OpenDealUnlocks(st, h, Unlock);
      ok, chosen := ReassignFreed(h, count, random);
    }

    method ReassignFreed(h: Hash, count: nat, random: nat -> nat) returns (ok: bool, ghost chosen: seq<Candidate>)
      requires h in st.deals && WellFormed(st.deals[h].segments) && st.deals[h].user in st.users && Distinct(registry)
      requires MoveAll(st.miners, Unlock, st.deals[h].tasks).Some?
      modifies this`st
      ensures ok <==> if count < MAX_REASSIGN then chosen != [] && Assigned(old(st).deals[h].segments, chosen).Some?
                      else Needed(|old(st).deals[h].segments|) <= UserLocked(old(st), old(st).deals[h].user)
      ensures ok == ReassignDeal(old(st), h, count, chosen).Some?
      ensures st == if ok then ReassignDeal(old(st), h, count, chosen).value else old(st)
    {
      var saved, deal := st, st.deals[h];
      chosen := [];
      ok := MoveSpaces(Unlock, deal.tasks);
      if count < MAX_REASSIGN {
        ok, chosen := FindNewMiners(h, deal, count, random);
      } else {
        ok := ExpireDeal(h, deal);
      }
      if !ok {
        st := saved;
      }
    }

    method FindNewMiners(h: Hash, deal: Deal, count: nat, random: nat -> nat)
      returns (ok: bool, ghost chosen: seq<Candidate>)
      requires Distinct(registry) && WellFormed(deal.segments)
      modifies this`st
      ensures ok <==> chosen != [] && Assigned(deal.segments, chosen).Some?
      ensures ok <==> NewMiners(old(st), h, deal, count, chosen).Some?
      ensures ok ==> st == NewMiners(old(st), h, deal, count, chosen).value
    {
      var tasks;
      tasks, chosen := RandomAssignMiner(deal.segments, random);
      if tasks.None? {
        return false, chosen;
      }
      st := st.(deals := st.deals[h := deal.(tasks := tasks.value, complete := [], count := count)],
                scheduled := st.scheduled[h := Reassign(count + 1)]);
      return true, chosen;
    }

    /** Gives the user's locked space back and drops the deal. */
    method ExpireDeal(h: Hash, deal: Deal) returns (ok: bool)
      modifies this`st
      ensures ok <==> deal.user in old(st).users && Needed(|deal.segments|) <= old(st).users[deal.user].locked
      ensures ok ==> var u := US.Unlock(old(st).users[deal.user], Needed(|deal.segments|));
                     u.Some? && st == old(st).(deals := old(st).deals - {h},
                                               users := old(st).users[deal.user := u.value])
    {
      if deal.user !in st.users {
        return false;
      }
      var space := US.Unlock(st.users[deal.user], Needed(|deal.segments|));
      if space.None? {
        return false;
      }
      st := st.(users := st.users[deal.user := space.value], deals := st.deals - {h});
      return true;
    }

    /**
     * The calculation is over: the miners' locked space becomes service space and the file active. Converting the
     * space never fails, so only a missing deal or a file deleted meanwhile stops it.
     */
    method CalculateEnd(h: Hash) returns (ok: bool)
      requires Valid()
      modifies this`st
      ensures ok <==> h in old(st).deals && h in old(st).files
      ensures ok == FinishDeal(old(st), h).Some?
      ensures st == if ok then FinishDeal(old(st), h).value else old(st)
    {
      var saved := st;
      if h !in st.deals {
        return false;
      }
      OpenDealUnlocks(st, h, Serve);
      ok := MoveSpaces(Serve, st.deals[h].tasks);
      if h !in st.files {
        st := saved;
        return false;
      }
      st := st.(files := st.files[h := st.files[h].(active := true)], deals := st.deals - {h});
    }

    /** A miner reports deals it has stored; the last report of a deal completes it. */
    method TransferReport(who: Account, hashes: seq<Hash>) returns (ok: bool)
      requires Valid()
      modifies this`st
      ensures Valid() && st == Next(old(st), EvReport(who, hashes))
      ensures ok == Step(old(st), EvReport(who, hashes)).Some? && (ok ==> |hashes| <= 4)
    {
      NextInOrder(st, registry, EvReport(who, hashes));
      if |hashes| >= REPORT_LIMIT {
        return false;
      }
      var saved := st;
      ghost var all := Report(st, who, hashes);
      for i := 0 to |hashes|
        invariant all == Report(st, who, hashes[i..])
      {
        assert hashes[i..][1..] == hashes[i + 1..];
        ok := ReportDeal(who, hashes[i]);
        if !ok {
          st := saved;
          return;
        }
      }
      return true;
    }

    method ReportDeal(who: Account, h: Hash) returns (ok: bool)
      modifies this`st
      ensures var r := ReportOne(old(st), who, h);
              ok == r.Some? && (ok ==> st == r.value)
    {
      if h !in st.deals {
        return true;
      }
      var deal := st.deals[h];
      var isAssignee := false;
      for i := 0 to |deal.tasks|
        invariant st == old(st)
        invariant isAssignee <==> exists k :: 0 <= k < i && deal.tasks[k].miner == who
      {
        isAssignee := isAssignee || deal.tasks[i].miner == who;
      }
      if !isAssignee {
        return true;
      }
      if who !in deal.complete {
        deal := deal.(complete := deal.complete + [who]);
      }
      if |deal.complete| != |deal.tasks| {
        st := st.(deals := st.deals[h := deal]);
        return true;
      }
      ok := CompleteReported(h, deal);
    }

    /** Records the file, moves the user's and the network's counters and schedules the completion. */
    method CompleteReported(h: Hash, deal: Deal) returns (ok: bool)
      modifies this`st
      ensures var r := CompleteDeal(old(st), h, deal);
              ok == r.Some? && (ok ==> st == r.value)
    {
      var segments := GenerateFile(deal.segments, deal.tasks, []);
      var needed := Needed(|deal.segments|);
      if deal.user !in st.users {
        return false;
      }
      var space := US.UnlockAndUse(st.users[deal.user], needed);
      if space.None? || st.totalIdle < needed {
        return false;
      }
      st := st.(deals := st.deals[h := deal.(stage := 2)],
                files := st.files[h := File(segments, [deal.user], false)],
                users := st.users[deal.user := space.value]);
      st := st.(totalIdle := st.totalIdle - needed, totalService := st.totalService + needed);
      st := st.(scheduled := st.scheduled - {h});
      st := st.(scheduled := st.scheduled[h := Finish]);
      assert st.scheduled == old(st.scheduled)[h := Finish];
      return true;
    }

    /** Deletes a user's files, or with `bucket` empties a bucket of theirs. */
    method DeleteFiles(who: Account, hashes: seq<Hash>, bucket: bool) returns (ok: bool)
      requires Valid()
      modifies this`st
      ensures Valid() && st == Next(old(st), EvDelete(who, hashes, bucket))
      ensures ok == Step(old(st), EvDelete(who, hashes, bucket)).Some?
      ensures ok <==> (bucket || |hashes| <= 9) && Delete(old(st), who, hashes, bucket).Some?
    {
      NextInOrder(st, registry, EvDelete(who, hashes, bucket));
      if !bucket && |hashes| >= DELETE_LIMIT {
        return false;
      }
      var saved := st;
      ghost var all := Delete(st, who, hashes, bucket);
      for i := 0 to |hashes|
        invariant all == Delete(st, who, hashes[i..], bucket)
      {
        assert hashes[i..][1..] == hashes[i + 1..];
        ok := DeleteFile(who, hashes[i], bucket);
        if !ok {
          st := saved;
          return;
        }
      }
      return true;
    }

    method DeleteFile(who: Account, h: Hash, bucket: bool) returns (ok: bool)
      modifies this`st
      ensures var r := if bucket then EmptyOne(old(st), h, who) else DeleteOne(old(st), h, who);
              ok == r.Some? && (ok ==> st == r.value)
    {
      if h !in st.files || (!bucket && !st.files[h].active) {
        return false;
      }
      var owners := st.files[h].owners;
      if |owners| > 1 {
        if bucket {
          ok := RemoveFileOwner(h, who);
        } else {
          ok := RemoveEachOwner(h, who, owners);
        }
      } else if bucket || owners == [who] {
        ok := RemoveFileLastOwner(h, who);
      } else {
        ok := true;
      }
    }

    method RemoveEachOwner(h: Hash, who: Account, owners: seq<Account>) returns (ok: bool)
      modifies this`st
      ensures var r := RemoveOwners(old(st), h, who, owners);
              ok == r.Some? && (ok ==> st == r.value)
    {
      ghost var all := RemoveOwners(st, h, who, owners);
      for i := 0 to |owners|
        invariant all == RemoveOwners(st, h, who, owners[i..])
      {
        assert owners[i..][1..] == owners[i + 1..];
        if owners[i] == who {
          ok := RemoveFileOwner(h, who);
          if !ok {
            return;
          }
        }
      }
      return true;
    }

    method RemoveFileOwner(h: Hash, who: Account) returns (ok: bool)
      modifies this`st
      ensures var r := RemoveOwner(old(st), h, who);
              ok == r.Some? && (ok ==> st == r.value)
    {
      if h !in st.files {
        return false;
      }
      var file := st.files[h];
      if who !in file.owners {
        return true;
      }
      if who !in st.users {
        return false;
      }
      var space := US.Release(st.users[who], Needed(|file.segments|));
      if space.None? {
        return false;
      }
      st := st.(users := st.users[who := space.value],
                files := st.files[h := file.(owners := WithoutFirst(file.owners, who))]);
      return true;
    }

    /** Takes the service space of every fragment off its miner and the sum off the network, then the file. */
    method RemoveFileLastOwner(h: Hash, who: Account) returns (ok: bool)
      requires h in st.files
      modifies this`st
      ensures var r := RemoveLastOwner(old(st), h, who);
              ok == r.Some? && (ok ==> st == r.value)
    {
      var infos := AllInfos(st.files[h].segments);
      var miners := st.miners;
      for i := 0 to |infos|
        invariant st == old(st)
        invariant TakeService(st.miners, infos) == TakeService(miners, infos[i..])
      {
        assert infos[i..][1..] == infos[i + 1..];
        var miner := infos[i].miner;
        if miner in miners {
          if miners[miner].service < FRAGMENT_SIZE {
            return false;
          }
          miners := miners[miner := miners[miner].(service := miners[miner].service - FRAGMENT_SIZE)];
        }
      }
      var size := Bytes(|infos|);
      if who !in st.users {
        return false;
      }
      var space := US.Release(st.users[who], size);
      if space.None? || st.totalService < size {
        return false;
      }
      st := st.(miners := miners, users := st.users[who := space.value]);
      st := st.(totalService := st.totalService - size, files := st.files - {h});
      return true;
    }

    /** Adds idle files of fixed size to a miner's space and the network's. */
    method UploadFillers(who: Account, hashes: seq<Hash>) returns (ok: bool)
      requires Valid()
      modifies this`st
      ensures Valid() && st == Next(old(st), EvUploadFiller(who, hashes))
      ensures ok == Step(old(st), EvUploadFiller(who, hashes)).Some? && (ok ==> |hashes| <= 10)
    {
      NextInOrder(st, registry, EvUploadFiller(who, hashes));
      ok := InsertFillers(who, hashes);
    }

    method InsertFillers(who: Account, hashes: seq<Hash>) returns (ok: bool)
      modifies this`st
      ensures ok == UploadFiller(old(st), who, hashes).Some?
      ensures st == if ok then UploadFiller(old(st), who, hashes).value else old(st)
    {
      if |hashes| > UPLOAD_FILLER_LIMIT || !IsPositive(st, who) {
        return false;
      }
      var fillers := st.fillers;
      for i := 0 to |hashes|
        invariant st == old(st)
        invariant AddFillers(st.fillers, who, hashes) == AddFillers(fillers, who, hashes[i..])
      {
        assert hashes[i..][1..] == hashes[i + 1..];
        if (who, hashes[i]) in fillers {
          return false;
        }
        fillers := fillers + {(who, hashes[i])};
      }
      var m, space := st.miners[who], Bytes(|hashes|);
      st := st.(fillers := fillers,
                miners := st.miners[who := m.(idle := m.idle + space)],
                totalIdle := st.totalIdle + space);
      return true;
    }

    method RemoveFiller(who: Account, h: Hash) returns (ok: bool)
      requires Valid()
      modifies this`st
      ensures Valid() && st == Next(old(st), EvDeleteFiller(who, h))
      ensures ok == Step(old(st), EvDeleteFiller(who, h)).Some?
    {
      NextInOrder(st, registry, EvDeleteFiller(who, h));
      ok := TakeFiller(who, h);
    }

    method TakeFiller(who: Account, h: Hash) returns (ok: bool)
      modifies this`st
      ensures ok == DeleteFiller(old(st), who, h).Some?
      ensures st == if ok then DeleteFiller(old(st), who, h).value else old(st)
    {
      if !IsPositive(st, who) || (who, h) !in st.fillers {
        return false;
      }
      var m := st.miners[who];
      if m.idle < FRAGMENT_SIZE || st.totalIdle < FRAGMENT_SIZE {
        return false;
      }
      st := st.(miners := st.miners[who := m.(idle := m.idle - FRAGMENT_SIZE)],
                totalIdle := st.totalIdle - FRAGMENT_SIZE,
                fillers := st.fillers - {(who, h)});
      return true;
    }

    /** The miner of a fragment gives it up: the first entry for it becomes unavailable and an order is opened. */
    method GenerateRestoralOrder(who: Account, file: Hash, f: Hash) returns (ok: bool)
      requires Valid()
      modifies this`st
      ensures Valid() && st == Next(old(st), EvGenerateOrder(who, file, f))
      ensures ok == Step(old(st), EvGenerateOrder(who, file, f)).Some?
    {
      NextInOrder(st, registry, EvGenerateOrder(who, file, f));
      if f in st.orders || file !in st.files {
        return false;
      }
      var segments := RewriteSegments(st.files[file].segments, f, who, FragmentInfo(f, false, who));
      if segments.None? {
        return false;
      }
      st := st.(files := st.files[file := st.files[file].(segments := segments.value)],
                orders := st.orders[f := Order(file, who, who, 0)]);
      return true;
    }

    /** A miner takes over an order whose deadline has passed. */
    method ClaimRestoralOrder(who: Account, f: Hash, now: nat, life: nat) returns (ok: bool)
      requires Valid()
      modifies this`st
      ensures Valid() && st == Next(old(st), EvClaimOrder(who, f, now, life))
      ensures ok <==> && who in old(st).miners && old(st).miners[who].positive
                      && f in old(st).orders && old(st).orders[f].deadline < now
      ensures ok ==> st.orders == old(st).orders[f := old(st).orders[f].(miner := who, deadline := now + life)]
    {
      NextInOrder(st, registry, EvClaimOrder(who, f, now, life));
      if !IsPositive(st, who) || f !in st.orders {
        return false;
      }
      var order := st.orders[f];
      if now <= order.deadline {
        return false;
      }
      order := order.(deadline := now + life, miner := who);
      st := st.(orders := st.orders[f := order]);
      return true;
    }

    /** A claimed fragment is restored: service space passes from the miner that lost it to the one that restored it. */
    method RestoralOrderComplete(who: Account, f: Hash, now: nat) returns (ok: bool)
      requires Valid()
      modifies this`st
      ensures Valid() && st == Next(old(st), EvCompleteOrder(who, f, now))
      ensures ok == Step(old(st), EvCompleteOrder(who, f, now)).Some?
      ensures ok ==> && who in old(st).miners && old(st).miners[who].positive
                     && f in old(st).orders && old(st).orders[f].miner == who && now < old(st).orders[f].deadline
    {
      NextInOrder(st, registry, EvCompleteOrder(who, f, now));
      if !IsPositive(st, who) || f !in st.orders || st.orders[f].miner != who || now >= st.orders[f].deadline {
        return false;
      }
      var saved, order := st, st.orders[f];
      st := st.(orders := st.orders - {f});
      ok := RestoreFragment(who, f, order);
      if !ok {
        st := saved;
      }
    }

    /** Moves the fragment to the restoring miner, with its service space. */
    method RestoreFragment(who: Account, f: Hash, order: Order) returns (ok: bool)
      modifies this`st
      ensures ok == Restore(old(st), who, f, order).Some?
      ensures ok ==> st == Restore(old(st), who, f, order).value
    {
      if order.file !in st.files {
        return true;
      }
      var file := st.files[order.file];
      var segments := RewriteSegments(file.segments, f, order.origin, FragmentInfo(f, true, who));
      if segments.None? {
        return true;
      }
      var miners := TakeService(st.miners, [FragmentInfo(f, true, order.origin)]);
      if miners.None? || who !in miners.value {
        return false;
      }
      var m := miners.value[who];
      st := st.(miners := miners.value[who := m.(service := m.service + FRAGMENT_SIZE)],
                files := st.files[order.file := file.(segments := segments.value)]);
      return true;
    }
  }
}

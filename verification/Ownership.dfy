/**
 * Who owns what: the used space of a user against the files that list the user as owner, over whole runs, and with it
 * exactly when deleting a file succeeds.
 */
module Ownership {
  import opened Base
  import opened Allocation
  import opened Placement
  import opened Deals
  import opened StoredFiles
  import US = UserSpace

  // ----- What owner entries charge

  /** What a list of owners charges one account, at `size` for every entry. */
  function Charge(owners: seq<Account>, who: Account, size: nat): nat {
    if owners == [] then 0 else (if owners[0] == who then size else 0) + Charge(owners[1..], who, size)
  }

  lemma {:induction false} ChargeAppend(owners: seq<Account>, a: Account, who: Account, size: nat)
    ensures Charge(owners + [a], who, size) == Charge(owners, who, size) + if a == who then size else 0
  {
    if owners == [] {
      assert [] + [a] == [a] && [a][1..] == [];
    } else {
      assert (owners + [a])[1..] == owners[1..] + [a];
      ChargeAppend(owners[1..], a, who, size);
    }
  }

  lemma {:induction false} ChargeWithout(owners: seq<Account>, a: Account, who: Account, size: nat)
    requires a in owners
    ensures Charge(WithoutFirst(owners, a), who, size) == Charge(owners, who, size) - if a == who then size else 0
  {
    if owners[0] != a {
      ChargeWithout(owners[1..], a, who, size);
      assert WithoutFirst(owners, a)[1..] == WithoutFirst(owners[1..], a);
    }
  }

  lemma {:induction false} ChargeOutsider(owners: seq<Account>, who: Account, size: nat)
    ensures who !in owners ==> Charge(owners, who, size) == 0
    ensures who in owners ==> Charge(owners, who, size) >= size
  {
    if owners != [] {
      ChargeOutsider(owners[1..], who, size);
    }
  }

  /** It charges once for every entry. */
  lemma {:induction false} ChargeIsPerEntry(owners: seq<Account>, who: Account, size: nat)
    ensures Charge(owners, who, size) == multiset(owners)[who] * size
  {
    if owners != [] {
      assert owners == [owners[0]] + owners[1..];
      ChargeIsPerEntry(owners[1..], who, size);
      var n := multiset(owners[1..])[who];
      assert (n + 1) * size == n * size + size;
    }
  }

  lemma ChargeOne(owners: seq<Account>, who: Account, size: nat)
    requires |owners| <= 1
    ensures Charge(owners, who, size) == if owners == [who] then size else 0
  {
    if owners != [] {
      assert owners == [owners[0]] && owners[1..] == [];
    }
  }

  function OwnedAt(files: map<Hash, File>, h: Hash, who: Account): nat {
    if h in files then Charge(files[h].owners, who, Needed(|files[h].segments|)) else 0
  }

  function Holdings(files: map<Hash, File>, who: Account): map<Hash, nat> {
    map h | h in files :: OwnedAt(files, h, who)
  }

  /** The size of all stored files, once for every entry of an account among their owners. */
  ghost function Owned(files: map<Hash, File>, who: Account): nat {
    MapSum(Holdings(files, who))
  }

  lemma OwnedElsewhere(files: map<Hash, File>, h: Hash, who: Account)
    ensures Owned(files, who) == Owned(files - {h}, who) + OwnedAt(files, h, who)
  {
    MapSumRemove(Holdings(files, who), h);
    assert Holdings(files - {h}, who) == Holdings(files, who) - {h};
  }

  // ----- What every call keeps

  /** The record of a deal has its segments, with three fragments each. */
  ghost predicate Fits(segments: seq<Segment>, tasks: seq<Task>) {
    && WellFormed(segments)
    && |FileOf(segments, tasks, [])| == |segments|
    && Bytes(|AllInfos(FileOf(segments, tasks, []))|) == Needed(|segments|)
  }

  lemma AssignedFits(ms: Miners, segments: seq<Segment>, chosen: seq<Candidate>)
    requires WellFormed(segments) && ValidChoice(ms, |segments|, chosen) && Assigned(segments, chosen).Some?
    ensures Fits(segments, Assigned(segments, chosen).value)
  {
    AssignedRecovers(ms, segments, chosen, 0);
    RecordSize(segments, Assigned(segments, chosen).value, 0);
    WeighAll(AllInfos(FileOf(segments, Assigned(segments, chosen).value, [])));
  }

  /** Deals belong to users and will fit their record; files fit theirs and are owned by users. */
  ghost predicate TitledAt(s: State, h: Hash) {
    && (h in s.deals ==> s.deals[h].user in s.users && Fits(s.deals[h].segments, s.deals[h].tasks))
    && (h in s.files ==>
          && Bytes(|AllInfos(s.files[h].segments)|) == Needed(|s.files[h].segments|)
          && forall i :: 0 <= i < |s.files[h].owners| ==> s.files[h].owners[i] in s.users)
  }

  ghost predicate Titled(s: State) {
    forall h :: TitledAt(s, h)
  }

  function UserUsed(s: State, who: Account): nat {
    if who in s.users then s.users[who].used else 0
  }

  /** A user's used space beyond the files it owns. */
  ghost function Untitled(s: State, who: Account): int {
    UserUsed(s, who) - Owned(s.files, who)
  }

  ghost predicate Titles(s: State, s': State, who: Account, shift: int) {
    Titled(s') && Untitled(s', who) == Untitled(s, who) + shift
  }

  /** A step that touches one hash accounts for its owners there. */
  lemma TitlesAt(s: State, s': State, h: Hash, who: Account, shift: int)
    requires Titled(s) && TitledAt(s', h) && s.users.Keys <= s'.users.Keys
    requires s'.deals - {h} == s.deals - {h} && s'.files - {h} == s.files - {h}
    requires UserUsed(s', who) - OwnedAt(s'.files, h, who) == UserUsed(s, who) - OwnedAt(s.files, h, who) + shift
    ensures Titles(s, s', who, shift)
  {
    OwnedElsewhere(s.files, h, who);
    OwnedElsewhere(s'.files, h, who);
    forall k ensures TitledAt(s', k) {
      if k != h {
        assert TitledAt(s, k);
        assert k in s'.deals - {h} <==> k in s.deals - {h};
        assert k in s'.files - {h} <==> k in s.files - {h};
        assert k in s.deals ==> s'.deals[k] == (s'.deals - {h})[k] == (s.deals - {h})[k];
        assert k in s.files ==> s'.files[k] == (s'.files - {h})[k] == (s.files - {h})[k];
      }
    }
  }

  /** Neither deals nor files change. */
  lemma TitlesKept(s: State, s': State, who: Account)
    requires Titled(s) && s'.deals == s.deals && s'.files == s.files && s.users.Keys <= s'.users.Keys
    requires UserUsed(s', who) == UserUsed(s, who)
    ensures Titles(s, s', who, 0)
  {
    forall h ensures TitledAt(s', h) {
      assert TitledAt(s, h);
    }
  }

  // ----- Declaring, and what falls due

  /** Joining charges what is declared, whatever the file's size. */
  function Misjoined(s: State, e: Event, who: Account): int
    requires e.EvDeclare?
  {
    if e.hash in s.files && e.who == who then Needed(|e.segments|) - Needed(|s.files[e.hash].segments|) else 0
  }

  lemma JoinTitles(s: State, e: Event, who: Account)
    requires Titled(s) && e.EvDeclare? && Step(s, e).Some? && e.hash in s.files
    ensures Titles(s, Step(s, e).value, who, Misjoined(s, e, who))
  {
    assert TitledAt(s, e.hash);
    ChargeAppend(s.files[e.hash].owners, e.who, who, Needed(|s.files[e.hash].segments|));
    TitlesAt(s, Step(s, e).value, e.hash, who, Misjoined(s, e, who));
  }

  lemma DeclareTitles(s: State, e: Event, who: Account)
    requires Titled(s) && e.EvDeclare? && Step(s, e).Some? && e.hash !in s.files
    ensures Titles(s, Step(s, e).value, who, 0)
  {
    AssignedFits(s.miners, e.segments, e.chosen);
    TitlesAt(s, Step(s, e).value, e.hash, who, 0);
  }

  lemma NewMinersTitles(s: State, h: Hash, ms: Miners, count: nat, chosen: seq<Candidate>, who: Account)
    requires Titled(s) && h in s.deals && NewMiners(s.(miners := ms), h, s.deals[h], count, chosen).Some?
    ensures Titles(s, NewMiners(s.(miners := ms), h, s.deals[h], count, chosen).value, who, 0)
  {
    assert TitledAt(s, h);
    AssignedFits(ms, s.deals[h].segments, chosen);
    TitlesAt(s, NewMiners(s.(miners := ms), h, s.deals[h], count, chosen).value, h, who, 0);
  }

  lemma ReassignTitles(s: State, h: Hash, count: nat, chosen: seq<Candidate>, who: Account)
    requires Titled(s) && ReassignDeal(s, h, count, chosen).Some?
    ensures Titles(s, ReassignDeal(s, h, count, chosen).value, who, 0)
  {
    if count < MAX_REASSIGN {
      NewMinersTitles(s, h, MoveAll(s.miners, Unlock, s.deals[h].tasks).value, count, chosen, who);
    } else {
      assert TitledAt(s, h);
      TitlesAt(s, ReassignDeal(s, h, count, chosen).value, h, who, 0);
    }
  }

  lemma FinishTitles(s: State, h: Hash, who: Account)
    requires Titled(s) && FinishDeal(s, h).Some?
    ensures Titles(s, FinishDeal(s, h).value, who, 0)
  {
    assert TitledAt(s, h);
    TitlesAt(s, FinishDeal(s, h).value, h, who, 0);
  }

  lemma FireTitles(s: State, h: Hash, chosen: seq<Candidate>, who: Account)
    requires Titled(s) && h in s.scheduled
    ensures Titles(s, Fire(s, h, chosen).value, who, 0)
  {
    var due, freed := s.scheduled[h], s.(scheduled := s.scheduled - {h});
    TitlesKept(s, freed, who);
    if due.Finish? {
      if FinishDeal(freed, h).Some? {
        FinishTitles(freed, h, who);
      }
    } else if ReassignDeal(freed, h, due.count, chosen).Some? {
      ReassignTitles(freed, h, due.count, chosen, who);
    }
  }

  // ----- Reports

  /** Completing a deal again makes its user the only owner: the entries of the record it replaces are lost. */
  function Dispossessed(s: State, reporter: Account, h: Hash, who: Account): nat {
    if IsLastReport(s, reporter, h) then OwnedAt(s.files, h, who) else 0
  }

  lemma CompleteTitles(s: State, h: Hash, deal: Deal, who: Account)
    requires Titled(s) && h in s.deals && CompleteDeal(s, h, deal).Some?
    requires deal == s.deals[h].(complete := deal.complete)
    ensures Titles(s, CompleteDeal(s, h, deal).value, who, OwnedAt(s.files, h, who))
  {
    assert TitledAt(s, h);
    ChargeOne([deal.user], who, Needed(|deal.segments|));
    TitlesAt(s, CompleteDeal(s, h, deal).value, h, who, OwnedAt(s.files, h, who));
  }

  lemma ReportOneTitles(s: State, reporter: Account, h: Hash, who: Account)
    requires Titled(s) && ReportOne(s, reporter, h).Some?
    ensures Titles(s, ReportOne(s, reporter, h).value, who, Dispossessed(s, reporter, h, who))
  {
    if h in s.deals && Assignee(s.deals[h].tasks, reporter) {
      var deal := s.deals[h];
      var complete := if reporter in deal.complete then deal.complete else deal.complete + [reporter];
      if |complete| == |deal.tasks| {
        CompleteTitles(s, h, deal.(complete := complete), who);
      } else {
        assert TitledAt(s, h);
        TitlesAt(s, s.(deals := s.deals[h := deal.(complete := complete)]), h, who, 0);
      }
    }
  }

  function ReportDispossessed(s: State, reporter: Account, hashes: seq<Hash>, who: Account): nat
    decreases |hashes|
  {
    if hashes == [] || ReportOne(s, reporter, hashes[0]).None? then 0
    else Dispossessed(s, reporter, hashes[0], who)
         + ReportDispossessed(ReportOne(s, reporter, hashes[0]).value, reporter, hashes[1..], who)
  }

  lemma {:induction false} ReportTitles(s: State, reporter: Account, hashes: seq<Hash>, who: Account)
    requires Titled(s) && Report(s, reporter, hashes).Some?
    ensures Titles(s, Report(s, reporter, hashes).value, who, ReportDispossessed(s, reporter, hashes, who))
    decreases |hashes|
  {
    if hashes != [] {
      ReportOneTitles(s, reporter, hashes[0], who);
      ReportTitles(ReportOne(s, reporter, hashes[0]).value, reporter, hashes[1..], who);
    }
  }

  // ----- Deletions

  /** The last entry goes and `owner` is credited, whether or not the entry was theirs. */
  function Miscredited(s: State, h: Hash, owner: Account, who: Account): int
    requires h in s.files
  {
    OwnedAt(s.files, h, who) - if owner == who then Needed(|s.files[h].segments|) else 0
  }

  lemma LastOwnerTitles(s: State, h: Hash, owner: Account, who: Account)
    requires Titled(s) && h in s.files && RemoveLastOwner(s, h, owner).Some?
    ensures Titles(s, RemoveLastOwner(s, h, owner).value, who, Miscredited(s, h, owner, who))
  {
    assert TitledAt(s, h);
    TitlesAt(s, RemoveLastOwner(s, h, owner).value, h, who, Miscredited(s, h, owner, who));
  }

  lemma OwnerTitles(s: State, h: Hash, owner: Account, who: Account)
    requires Titled(s) && RemoveOwner(s, h, owner).Some?
    ensures Titles(s, RemoveOwner(s, h, owner).value, who, 0)
  {
    if owner in s.files[h].owners {
      assert TitledAt(s, h);
      ChargeWithout(s.files[h].owners, owner, who, Needed(|s.files[h].segments|));
      WithoutFirstIsKnown(s.files[h].owners, owner, s.users.Keys);
      TitlesAt(s, RemoveOwner(s, h, owner).value, h, who, 0);
    }
  }

  lemma WithoutFirstIsKnown(owners: seq<Account>, who: Account, known: set<Account>)
    requires who in owners && forall i :: 0 <= i < |owners| ==> owners[i] in known
    ensures forall i :: 0 <= i < |WithoutFirst(owners, who)| ==> WithoutFirst(owners, who)[i] in known
  {
    WithoutFirstTakesOne(owners, who);
    forall i | 0 <= i < |WithoutFirst(owners, who)| ensures WithoutFirst(owners, who)[i] in known {
      assert WithoutFirst(owners, who)[i] in multiset(WithoutFirst(owners, who));
      assert WithoutFirst(owners, who)[i] in multiset(owners);
    }
  }

  lemma {:induction false} OwnersTitles(s: State, h: Hash, owner: Account, owners: seq<Account>, who: Account)
    requires Titled(s) && RemoveOwners(s, h, owner, owners).Some?
    ensures Titles(s, RemoveOwners(s, h, owner, owners).value, who, 0)
    decreases |owners|
  {
    if owners != [] {
      if owners[0] == owner {
        OwnerTitles(s, h, owner, who);
        OwnersTitles(RemoveOwner(s, h, owner).value, h, owner, owners[1..], who);
      } else {
        OwnersTitles(s, h, owner, owners[1..], who);
      }
    }
  }

  lemma DeleteOneTitles(s: State, h: Hash, owner: Account, who: Account)
    requires Titled(s) && DeleteOne(s, h, owner).Some?
    ensures Titles(s, DeleteOne(s, h, owner).value, who, 0)
  {
    var owners := s.files[h].owners;
    if |owners| > 1 {
      OwnersTitles(s, h, owner, owners, who);
    } else if owners == [owner] {
      ChargeOne(owners, who, Needed(|s.files[h].segments|));
      LastOwnerTitles(s, h, owner, who);
    }
  }

  /** Emptying a bucket does not ask whether its user is still the owner. */
  function EmptyOneMiscredits(s: State, h: Hash, owner: Account, who: Account): int {
    if h in s.files && |s.files[h].owners| <= 1 then Miscredited(s, h, owner, who) else 0
  }

  lemma EmptyOneTitles(s: State, h: Hash, owner: Account, who: Account)
    requires Titled(s) && EmptyOne(s, h, owner).Some?
    ensures Titles(s, EmptyOne(s, h, owner).value, who, EmptyOneMiscredits(s, h, owner, who))
  {
    if |s.files[h].owners| > 1 {
      OwnerTitles(s, h, owner, who);
    } else {
      LastOwnerTitles(s, h, owner, who);
    }
  }

  function DeleteMiscredits(s: State, owner: Account, hashes: seq<Hash>, bucket: bool, who: Account): int
    decreases |hashes|
  {
    if hashes == [] || !bucket || EmptyOne(s, hashes[0], owner).None? then 0
    else EmptyOneMiscredits(s, hashes[0], owner, who)
         + DeleteMiscredits(EmptyOne(s, hashes[0], owner).value, owner, hashes[1..], bucket, who)
  }

  lemma {:induction false} DeleteTitles(s: State, owner: Account, hashes: seq<Hash>, bucket: bool, who: Account)
    requires Titled(s) && Delete(s, owner, hashes, bucket).Some?
    ensures Titles(s, Delete(s, owner, hashes, bucket).value, who, DeleteMiscredits(s, owner, hashes, bucket, who))
    decreases |hashes|
  {
    if hashes != [] {
      if bucket {
        EmptyOneTitles(s, hashes[0], owner, who);
        DeleteTitles(EmptyOne(s, hashes[0], owner).value, owner, hashes[1..], bucket, who);
      } else {
        DeleteOneTitles(s, hashes[0], owner, who);
        DeleteTitles(DeleteOne(s, hashes[0], owner).value, owner, hashes[1..], bucket, who);
      }
    }
  }

  // ----- Restoral

  lemma {:induction false} RewriteKeepsLength(segments: seq<SegmentInfo>, f: Hash, from: Account, info: FragmentInfo)
    requires RewriteFile(segments, f, from, info).Some?
    ensures |RewriteFile(segments, f, from, info).value| == |segments|
  {
    if Rewrite(segments[0].fragments, f, from, info).None? {
      RewriteKeepsLength(segments[1..], f, from, info);
    }
  }

  lemma RewriteTitles(s: State, s': State, h: Hash, f: Hash, from: Account, info: FragmentInfo, who: Account)
    requires Titled(s) && h in s.files && RewriteFile(s.files[h].segments, f, from, info).Some?
    requires s'.deals == s.deals && s'.users == s.users
    requires s'.files == s.files[h := s.files[h].(segments := RewriteFile(s.files[h].segments, f, from, info).value)]
    ensures Titles(s, s', who, 0)
  {
    var segments := s.files[h].segments;
    assert TitledAt(s, h);
    RewriteKeepsLength(segments, f, from, info);
    RewriteFileWeighs(segments, f, from, info, None);
    WeighAll(AllInfos(segments));
    WeighAll(AllInfos(s'.files[h].segments));
    TitlesAt(s, s', h, who, 0);
  }

  lemma OrderTitles(s: State, e: Event, who: Account)
    requires Titled(s) && Step(s, e).Some? && (e.EvGenerateOrder? || e.EvClaimOrder? || e.EvCompleteOrder?)
    ensures Titles(s, Step(s, e).value, who, 0)
  {
    var s' := Step(s, e).value;
    if s'.files == s.files {
      TitlesKept(s, s', who);
    } else if e.EvGenerateOrder? {
      RewriteTitles(s, s', e.file, e.hash, e.who, FragmentInfo(e.hash, false, e.who), who);
    } else {
      var order := s.orders[e.hash];
      RewriteTitles(s, s', order.file, e.hash, order.origin, FragmentInfo(e.hash, true, e.who), who);
    }
  }

  // ----- Runs

  /** What a call adds to a user's used space beyond what it adds to the files the user owns. */
  function Mistitled(s: State, e: Event, who: Account): int {
    if Step(s, e).None? then 0
    else match e
      case EvDeclare(_, _, _, _) => Misjoined(s, e, who)
      case EvReport(reporter, hashes) => ReportDispossessed(s, reporter, hashes, who)
      case EvDelete(owner, hashes, bucket) => DeleteMiscredits(s, owner, hashes, bucket, who)
      case _ => 0
  }

  lemma NextTitles(s: State, e: Event, who: Account)
    requires Titled(s)
    ensures Titles(s, Next(s, e), who, Mistitled(s, e, who))
  {
    if Step(s, e).Some? {
      match e
      case EvDeclare(_, h, _, _) =>
        if h in s.files {
          JoinTitles(s, e, who);
        } else {
          DeclareTitles(s, e, who);
        }
      case EvFire(h, chosen) => FireTitles(s, h, chosen, who);
      case EvReport(reporter, hashes) => ReportTitles(s, reporter, hashes, who);
      case EvDelete(owner, hashes, bucket) => DeleteTitles(s, owner, hashes, bucket, who);
      case EvGenerateOrder(_, _, _) => OrderTitles(s, e, who);
      case EvClaimOrder(_, _, _, _) => OrderTitles(s, e, who);
      case EvCompleteOrder(_, _, _) => OrderTitles(s, e, who);
      case _ => TitlesKept(s, Step(s, e).value, who);
    }
  }

  function TotalMistitled(s: State, es: seq<Event>, who: Account): int
    decreases |es|
  {
    if es == [] then 0 else Mistitled(s, es[0], who) + TotalMistitled(Next(s, es[0]), es[1..], who)
  }

  lemma {:induction false} RunTitles(s: State, es: seq<Event>, who: Account)
    requires Titled(s)
    ensures Titles(s, Run(s, es), who, TotalMistitled(s, es, who))
    decreases |es|
  {
    if es != [] {
      NextTitles(s, es[0], who);
      RunTitles(Next(s, es[0]), es[1..], who);
    }
  }

  /**
   * Used space matches ownership: in every run a user's used space is the size of the stored files, once for every
   * entry of the user among their owners, plus what three calls mistitle. Joining a file charges what was declared
   * instead of the file's size, completing a deal again drops the entries of all owners, and emptying a bucket
   * credits its user for a last entry of somebody else.
   */
  lemma UsedSpaceMatchesOwners(s: State, es: seq<Event>, who: Account)
    requires IsGenesis(s)
    ensures UserUsed(Run(s, es), who) == Owned(Run(s, es).files, who) + TotalMistitled(s, es, who)
  {
    assert Holdings(s.files, who) == map[];
    RunTitles(s, es, who);
  }

  // ----- When a deletion succeeds

  /** What giving back every entry of `who` takes of the account: as much used, and not overbooked beyond one. */
  predicate CanRelease(s: State, h: Hash, who: Account)
    requires h in s.files
  {
    var size := Needed(|s.files[h].segments|);
    who in s.users && Charge(s.files[h].owners, who, size) <= s.users[who].used <= s.users[who].total + size
  }

  lemma {:induction false} RemoveOwnersIff(s: State, h: Hash, who: Account, owners: seq<Account>)
    requires h in s.files && who in s.users && multiset(owners)[who] <= multiset(s.files[h].owners)[who]
    ensures var u, size := s.users[who], Needed(|s.files[h].segments|);
            RemoveOwners(s, h, who, owners).Some?
            <==> who in owners ==> Charge(owners, who, size) <= u.used <= u.total + size
    decreases |owners|
  {
    if owners != [] {
      assert owners == [owners[0]] + owners[1..];
      ChargeOutsider(owners[1..], who, Needed(|s.files[h].segments|));
      if owners[0] != who {
        RemoveOwnersIff(s, h, who, owners[1..]);
      } else {
        assert who in multiset(s.files[h].owners);
        if RemoveOwner(s, h, who).Some? {
          WithoutFirstTakesOne(s.files[h].owners, who);
          RemoveOwnersIff(RemoveOwner(s, h, who).value, h, who, owners[1..]);
        }
      }
    }
  }

  /** Every miner of the record has, beside the deals being finished, the service space that its deletion takes. */
  ghost predicate ServiceSuffices(s: State, es: seq<Event>, h: Hash) {
    forall a: Account :: Bytes(OpenLoad(Finishing(Run(s, es)), a)) <= Spare(s, es, h, a)
  }

  lemma LastOwnerIff(s: State, es: seq<Event>, h: Hash, who: Account)
    requires IsGenesis(s) && h in Run(s, es).files
    ensures var r, size := Run(s, es), Needed(|Run(s, es).files[h].segments|);
            RemoveLastOwner(r, h, who).Some?
            <==> && ServiceSuffices(s, es, h)
                 && who in r.users && size <= r.users[who].used <= r.users[who].total + size
  {
    RunTitles(s, es, who);
    assert TitledAt(Run(s, es), h);
    ServiceIsThereIff(s, es, h);
    DeletionFitsTotal(s, es, h);
  }

  /**
   * In every run, deleting a file succeeds exactly when the file is stored and active and, if the caller is an owner,
   * the caller's account can give back all its entries and, if that is the last entry, the miners of the file have the
   * service space.
   */
  lemma DeletionSucceedsIff(s: State, es: seq<Event>, h: Hash, who: Account)
    requires IsGenesis(s)
    ensures var r := Run(s, es);
            Step(r, EvDelete(who, [h], false)).Some?
            <==> && h in r.files && r.files[h].active
                 && (who in r.files[h].owners ==>
                       CanRelease(r, h, who) && (|r.files[h].owners| == 1 ==> ServiceSuffices(s, es, h)))
  {
    var r := Run(s, es);
    DeleteSingle(r, who, h, false);
    if h in r.files && r.files[h].active {
      var owners := r.files[h].owners;
      RunTitles(s, es, who);
      assert TitledAt(r, h);
      if |owners| > 1 {
        DeletionByOneOfMany(r, h, who);
      } else {
        ChargeOne(owners, who, Needed(|r.files[h].segments|));
        LastOwnerIff(s, es, h, who);
      }
    }
  }

  lemma DeletionByOneOfMany(r: State, h: Hash, who: Account)
    requires TitledAt(r, h) && h in r.files && |r.files[h].owners| > 1
    ensures RemoveOwners(r, h, who, r.files[h].owners).Some? <==> who in r.files[h].owners ==> CanRelease(r, h, who)
  {
    if who in r.files[h].owners {
      RemoveOwnersIff(r, h, who, r.files[h].owners);
    } else {
      NoOwnerToRemove(r, h, who, r.files[h].owners);
    }
  }

  lemma {:induction false} NoOwnerToRemove(r: State, h: Hash, who: Account, owners: seq<Account>)
    requires who !in owners
    ensures RemoveOwners(r, h, who, owners) == Some(r)
    decreases |owners|
  {
    if owners != [] {
      NoOwnerToRemove(r, h, who, owners[1..]);
    }
  }

  /** Emptying a bucket of one file asks nothing of the file's stage, and of nobody whether the file is theirs. */
  lemma EmptyingSucceedsIff(s: State, es: seq<Event>, h: Hash, who: Account)
    requires IsGenesis(s)
    ensures var r := Run(s, es);
            Step(r, EvDelete(who, [h], true)).Some?
            <==> && h in r.files
                 && var u, size := UserOf(r, who), Needed(|r.files[h].segments|);
                    if |r.files[h].owners| > 1
                    then who in r.files[h].owners ==> size <= u.used <= u.total + size
                    else who in r.users && size <= u.used <= u.total + size && ServiceSuffices(s, es, h)
  {
    var r := Run(s, es);
    DeleteSingle(r, who, h, true);
    if h in r.files {
      RunTitles(s, es, who);
      assert TitledAt(r, h);
      LastOwnerIff(s, es, h, who);
    }
  }

  function UserOf(s: State, who: Account): US.Space {
    if who in s.users then s.users[who] else US.Bought(0)
  }

  /** An owner whose account was never charged too little has used at least what its entries give back. */
  lemma OwnersHaveUsedEnough(s: State, es: seq<Event>, h: Hash, who: Account)
    requires IsGenesis(s) && h in Run(s, es).files && TotalMistitled(s, es, who) >= 0
    ensures Charge(Run(s, es).files[h].owners, who, Needed(|Run(s, es).files[h].segments|)) <= UserUsed(Run(s, es), who)
  {
    UsedSpaceMatchesOwners(s, es, who);
    OwnedElsewhere(Run(s, es).files, h, who);
  }

  /**
   * So a deletion never fails for an owner never charged too little and not overbooked, while strays cost no miner
   * anything and restoral leaves files under calculation alone.
   */
  lemma DeletionNeverFails(s: State, es: seq<Event>, h: Hash, who: Account)
    requires IsGenesis(s) && h in Run(s, es).files && Run(s, es).files[h].active && who in Run(s, es).files[h].owners
    requires TotalMistitled(s, es, who) >= 0 && who in Run(s, es).users
    requires Run(s, es).users[who].used <= Run(s, es).users[who].total + Needed(|Run(s, es).files[h].segments|)
    requires forall a: Account :: TotalStray(s, es, a) >= 0
    requires forall a: Account :: AsAssigned(Run(s, es), a)
    ensures Step(Run(s, es), EvDelete(who, [h], false)).Some?
  {
    DeletionSucceedsIff(s, es, h, who);
    OwnersHaveUsedEnough(s, es, h, who);
    ServiceIsThere(s, es, h);
  }
}

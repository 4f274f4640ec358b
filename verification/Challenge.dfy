/** Reward rounds over the miners of a run: every snapshot the network can draw keeps a round within its reward. */
module Challenge {
  import opened Base
  import opened Allocation
  import opened Placement
  import opened Deals
  import MR = MinerRewards

  /** All space of all miners is whole fragments. */
  ghost predicate WholeMiners(ms: Miners) {
    forall a :: a in ms ==> Whole(ms[a].idle) && Whole(ms[a].locked) && Whole(ms[a].service)
  }

  lemma WholeShift(space: nat, fragments: nat)
    requires Whole(space)
    ensures Whole(space + Bytes(fragments))
    ensures Bytes(fragments) <= space ==> Whole(space - Bytes(fragments))
  {
  }

  lemma MoveKeepsWhole(ms: Miners, move: Move, who: Account, fragments: nat)
    requires WholeMiners(ms) && MoveSpace(ms, move, who, Bytes(fragments)).Some?
    ensures WholeMiners(MoveSpace(ms, move, who, Bytes(fragments)).value)
  {
    if who in ms {
      WholeShift(ms[who].idle, fragments);
      WholeShift(ms[who].locked, fragments);
      WholeShift(ms[who].service, fragments);
    }
  }

  lemma {:induction false} MovesKeepWhole(ms: Miners, move: Move, tasks: seq<Task>)
    requires WholeMiners(ms) && MoveAll(ms, move, tasks).Some?
    ensures WholeMiners(MoveAll(ms, move, tasks).value)
    decreases |tasks|
  {
    if tasks != [] {
      MoveKeepsWhole(ms, move, tasks[0].miner, |tasks[0].fragments|);
      MovesKeepWhole(MoveSpace(ms, move, tasks[0].miner, Bytes(|tasks[0].fragments|)).value, move, tasks[1..]);
    }
  }

  lemma {:induction false} TakingKeepsWhole(ms: Miners, infos: seq<FragmentInfo>)
    requires WholeMiners(ms) && TakeService(ms, infos).Some?
    ensures WholeMiners(TakeService(ms, infos).value)
    decreases |infos|
  {
    if infos != [] && infos[0].miner in ms {
      var m := ms[infos[0].miner];
      TakingKeepsWhole(ms[infos[0].miner := m.(service := m.service - FRAGMENT_SIZE)], infos[1..]);
    } else if infos != [] {
      TakingKeepsWhole(ms, infos[1..]);
    }
  }

  lemma DueKeepsWhole(s: State, h: Hash, due: Pending, chosen: seq<Candidate>)
    requires WholeMiners(s.miners)
    ensures var r := if due.Reassign? then ReassignDeal(s, h, due.count, chosen) else FinishDeal(s, h);
            r.Some? ==> WholeMiners(r.value.miners)
  {
    if h in s.deals {
      var deal, move := s.deals[h], if due.Reassign? then Unlock else Serve;
      if MoveAll(s.miners, move, deal.tasks).Some? {
        MovesKeepWhole(s.miners, move, deal.tasks);
        if due.Reassign? && due.count < MAX_REASSIGN {
          NewMinersKeepWhole(s.(miners := MoveAll(s.miners, move, deal.tasks).value), h, deal, due.count, chosen);
        }
      }
    }
  }

  lemma NewMinersKeepWhole(s: State, h: Hash, deal: Deal, count: nat, chosen: seq<Candidate>)
    requires WholeMiners(s.miners)
    ensures var r := NewMiners(s, h, deal, count, chosen); r.Some? ==> WholeMiners(r.value.miners)
  {
    if NewMiners(s, h, deal, count, chosen).Some? {
      MovesKeepWhole(s.miners, Lock, Assigned(deal.segments, chosen).value);
    }
  }

  lemma DeclareKeepsWhole(s: State, user: Account, h: Hash, segments: seq<Segment>, chosen: seq<Candidate>)
    requires WholeMiners(s.miners)
    ensures var r := Declare(s, user, h, segments, chosen); r.Some? ==> WholeMiners(r.value.miners)
  {
    if Declare(s, user, h, segments, chosen).Some? && h !in s.files {
      MovesKeepWhole(s.miners, Lock, Assigned(segments, chosen).value);
    }
  }

  lemma {:induction false} DeleteKeepsWhole(s: State, who: Account, hashes: seq<Hash>, bucket: bool)
    requires WholeMiners(s.miners)
    ensures var r := Delete(s, who, hashes, bucket); r.Some? ==> WholeMiners(r.value.miners)
    decreases |hashes|
  {
    if hashes != [] {
      var h := hashes[0];
      var r := if bucket then EmptyOne(s, h, who) else DeleteOne(s, h, who);
      if r.Some? {
        OwnersKeepMiners(s, h, who, s.files[h].owners);
        if RemoveLastOwner(s, h, who).Some? {
          TakingKeepsWhole(s.miners, AllInfos(s.files[h].segments));
        }
        DeleteKeepsWhole(r.value, who, hashes[1..], bucket);
      }
    }
  }

  lemma RestoreKeepsWhole(s: State, who: Account, f: Hash, order: Order)
    requires WholeMiners(s.miners)
    ensures var r := Restore(s, who, f, order); r.Some? ==> WholeMiners(r.value.miners)
  {
    var taken := TakeService(s.miners, [FragmentInfo(f, true, order.origin)]);
    if taken.Some? {
      TakingKeepsWhole(s.miners, [FragmentInfo(f, true, order.origin)]);
    }
  }

  lemma FillersKeepWhole(s: State, who: Account, hashes: seq<Hash>, h: Hash)
    requires WholeMiners(s.miners)
    ensures UploadFiller(s, who, hashes).Some? ==> WholeMiners(UploadFiller(s, who, hashes).value.miners)
    ensures DeleteFiller(s, who, h).Some? ==> WholeMiners(DeleteFiller(s, who, h).value.miners)
  {
  }

  lemma PlainKeepsWhole(s: State, e: Event)
    requires WholeMiners(s.miners)
    requires || e.EvRegister? || e.EvSetState? || e.EvBuySpace? || e.EvExpandSpace? || e.EvFreeze?
             || e.EvGenerateOrder? || e.EvClaimOrder?
    ensures WholeMiners(Next(s, e).miners)
  {
  }

  lemma NextKeepsWhole(s: State, e: Event)
    requires WholeMiners(s.miners)
    ensures WholeMiners(Next(s, e).miners)
  {
    match e
    case EvDeclare(user, h, segments, chosen) => DeclareKeepsWhole(s, user, h, segments, chosen);
    case EvFire(h, chosen) =>
      if h in s.scheduled {
        DueKeepsWhole(s.(scheduled := s.scheduled - {h}), h, s.scheduled[h], chosen);
      }
    case EvReport(miner, hashes) => ReportKeepsMiners(s, miner, hashes);
    case EvDelete(owner, hashes, bucket) => DeleteKeepsWhole(s, owner, hashes, bucket);
    case EvCompleteOrder(miner, f, now) =>
      if f in s.orders {
        RestoreKeepsWhole(s.(orders := s.orders - {f}), miner, f, s.orders[f]);
      }
    case EvUploadFiller(who, hashes) => FillersKeepWhole(s, who, hashes, 0);
    case EvDeleteFiller(who, h) => FillersKeepWhole(s, who, [], h);
    case _ => PlainKeepsWhole(s, e);
  }

  /** In every run all space of all miners stays whole fragments. */
  lemma {:induction false} RunKeepsWhole(s: State, es: seq<Event>)
    requires WholeMiners(s.miners)
    ensures WholeMiners(Run(s, es).miners)
    decreases |es|
  {
    if es != [] {
      NextKeepsWhole(s, es[0]);
      RunKeepsWhole(Next(s, es[0]), es[1..]);
    }
  }

  /** What a challenge sees of the miners it draws; `locks[i]` says whether the `i`-th is locked out. */
  function Views(ms: Miners, drawn: seq<Account>, locks: seq<bool>): (views: seq<MR.MinerView>)
    requires |locks| == |drawn| && forall i :: 0 <= i < |drawn| ==> drawn[i] in ms
    ensures |views| == |drawn|
  {
    seq(|drawn|, i requires 0 <= i < |drawn| => MR.MinerView(locks[i], ms[drawn[i]].idle, ms[drawn[i]].service))
  }

  /**
   * A round never over-promises: whichever miners of whichever run a challenge draws, the rewards of all of them
   * together stay within the reward of the round.
   */
  lemma RoundsNeverOverPromise(s: State, es: seq<Event>, drawn: seq<Account>, locks: seq<bool>, reward: nat)
    requires IsGenesis(s) && |locks| == |drawn|
    requires forall i :: 0 <= i < |drawn| ==> drawn[i] in Run(s, es).miners
    ensures var snaps := MR.Counted(Views(Run(s, es).miners, drawn, locks));
            MR.RoundSum(reward, MR.TotalIdle(snaps), MR.TotalService(snaps), snaps) <= reward
  {
    RunKeepsWhole(s, es);
    MR.SnapshotFits(reward, Views(Run(s, es).miners, drawn, locks));
  }
}

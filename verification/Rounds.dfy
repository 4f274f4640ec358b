/** How often a deal may look for miners: the rounds of its first stage, over whole runs. */
module Rounds {
  import opened Base
  import opened Allocation
  import opened Placement
  import opened Deals
  import opened StoredFiles
  import opened Completion
  import US = UserSpace

  /** The first-stage call of a deal is scheduled for round `round`. */
  predicate Awaits(s: State, h: Hash, round: nat) {
    h in s.scheduled && s.scheduled[h] == Reassign(round)
  }

  /**
   * Whatever is scheduled has a deal, and a first-stage call is scheduled for the round after the one its deal has
   * reached, which is one of five.
   */
  ghost predicate CountedAt(s: State, h: Hash) {
    h in s.scheduled ==>
      && h in s.deals
      && (s.scheduled[h].Reassign? ==> s.scheduled[h].count == s.deals[h].count + 1 <= 5)
  }

  ghost predicate Counted(s: State) {
    forall h :: CountedAt(s, h)
  }

  lemma CountedElsewhere(s: State, s': State, h: Hash)
    requires Counted(s) && CountedAt(s', h)
    requires s'.deals - {h} == s.deals - {h} && s'.scheduled - {h} == s.scheduled - {h}
    ensures Counted(s')
  {
    forall k ensures CountedAt(s', k) {
      if k != h {
        assert CountedAt(s, k);
        assert k in s'.deals - {h} <==> k in s.deals - {h};
        assert k in s'.scheduled - {h} <==> k in s.scheduled - {h};
        assert k in s.deals ==> s'.deals[k] == (s'.deals - {h})[k] == (s.deals - {h})[k];
        assert k in s.scheduled ==> s'.scheduled[k] == (s'.scheduled - {h})[k] == (s.scheduled - {h})[k];
      }
    }
  }

  // ----- What one call does to the rounds

  /**
   * A first-stage call that falls due before the fifth round finds new miners and waits for the next round, or fails
   * and is not scheduled again; the one of the fifth round ends the deal or fails. Either way its own round is over.
   */
  lemma FireAdvances(s: State, h: Hash, chosen: seq<Candidate>)
    requires h in s.deals && h in s.scheduled && s.scheduled[h].Reassign?
    ensures var round, s' := s.scheduled[h].count, Next(s, EvFire(h, chosen));
            && (h in s'.scheduled ==>
                  && round < 5 && Awaits(s', h, round + 1) && h in s'.deals
                  && s'.deals[h] == s.deals[h].(tasks := s'.deals[h].tasks, complete := [], count := round))
            && (h !in s'.scheduled && h in s'.deals ==> s'.deals[h] == s.deals[h])
            && (h !in s'.deals ==> round >= 5) && (round < 5 ==> s'.users == s.users)
            && s'.deals - {h} == s.deals - {h} && s'.scheduled - {h} == s.scheduled - {h}
  {
  }

  lemma CompleteKeepsRounds(s: State, h: Hash, deal: Deal)
    requires CompleteDeal(s, h, deal).Some?
    ensures var s' := CompleteDeal(s, h, deal).value;
            && s'.scheduled == s.scheduled[h := Finish] && s'.deals == s.deals[h := deal.(stage := 2)]
            && s'.deals - {h} == s.deals - {h} && s'.scheduled - {h} == s.scheduled - {h}
  {
  }

  lemma ReportOneKeepsRounds(s: State, who: Account, h: Hash)
    requires CountedAt(s, h) && ReportOne(s, who, h).Some?
    ensures var s' := ReportOne(s, who, h).value;
            && CountedAt(s', h)
            && s'.deals - {h} == s.deals - {h} && s'.scheduled - {h} == s.scheduled - {h}
            && (h in s'.scheduled && s'.scheduled[h].Reassign? ==> s'.scheduled == s.scheduled)
  {
    if h in s.deals && Assignee(s.deals[h].tasks, who) {
      var deal := s.deals[h];
      var reported := deal.(complete := if who in deal.complete then deal.complete else deal.complete + [who]);
      if |reported.complete| == |deal.tasks| {
        CompleteKeepsRounds(s, h, reported);
      } else {
        assert s.deals[h := reported] - {h} == s.deals - {h};
      }
    }
  }

  lemma {:induction false} ReportKeepsRounds(s: State, who: Account, hashes: seq<Hash>, h: Hash)
    requires Counted(s) && Report(s, who, hashes).Some?
    ensures Counted(Report(s, who, hashes).value)
    ensures var s' := Report(s, who, hashes).value;
            h in s'.scheduled && s'.scheduled[h].Reassign? ==> h in s.scheduled && s'.scheduled[h] == s.scheduled[h]
    decreases |hashes|
  {
    if hashes != [] {
      var s' := ReportOne(s, who, hashes[0]).value;
      ReportOneKeepsRounds(s, who, hashes[0]);
      CountedElsewhere(s, s', hashes[0]);
      if h != hashes[0] {
        SameElsewhereAt(s, s', hashes[0], h);
      }
      ReportKeepsRounds(s', who, hashes[1..], h);
    }
  }

  lemma {:induction false} OwnersKeepRounds(s: State, h: Hash, who: Account, owners: seq<Account>)
    requires RemoveOwners(s, h, who, owners).Some?
    ensures var s' := RemoveOwners(s, h, who, owners).value; s'.deals == s.deals && s'.scheduled == s.scheduled
    decreases |owners|
  {
    if owners != [] {
      OwnersKeepRounds(if owners[0] == who then RemoveOwner(s, h, who).value else s, h, who, owners[1..]);
    }
  }

  lemma {:induction false} DeleteKeepsRounds(s: State, who: Account, hashes: seq<Hash>, bucket: bool)
    requires Delete(s, who, hashes, bucket).Some?
    ensures var s' := Delete(s, who, hashes, bucket).value; s'.deals == s.deals && s'.scheduled == s.scheduled
    decreases |hashes|
  {
    if hashes != [] {
      if !bucket && |s.files[hashes[0]].owners| > 1 {
        OwnersKeepRounds(s, hashes[0], who, s.files[hashes[0]].owners);
      }
      var r := if bucket then EmptyOne(s, hashes[0], who) else DeleteOne(s, hashes[0], who);
      DeleteKeepsRounds(r.value, who, hashes[1..], bucket);
    }
  }

  /** A successful declaration of a file that is not stored opens a deal in its first round. */
  predicate Opens(s: State, e: Event, h: Hash) {
    e.EvDeclare? && e.hash == h && h !in s.files && Step(s, e).Some?
  }

  predicate FallsDue(s: State, e: Event, h: Hash) {
    e.EvFire? && e.hash == h && h in s.scheduled && s.scheduled[h].Reassign?
  }

  lemma OpensFirstRound(s: State, e: Event, h: Hash)
    requires Opens(s, e, h)
    ensures h !in s.scheduled
    ensures var s' := Next(s, e);
            && Awaits(s', h, 1) && h in s'.deals && s'.deals[h].count == 0 && s'.deals[h].stage == 1
            && s'.deals - {h} == s.deals - {h} && s'.scheduled - {h} == s.scheduled - {h}
  {
  }

  lemma FinishKeepsRounds(s: State, h: Hash, chosen: seq<Candidate>)
    requires h in s.scheduled && s.scheduled[h].Finish?
    ensures var s' := Next(s, EvFire(h, chosen));
            h !in s'.scheduled && s'.deals - {h} == s.deals - {h} && s'.scheduled - {h} == s.scheduled - {h}
  {
  }

  /** Calls that are neither declarations of new deals nor scheduled ones start no round. */
  lemma OthersKeepRounds(s: State, e: Event, h: Hash)
    requires Counted(s) && Step(s, e).Some? && !e.EvFire? && !(e.EvDeclare? && e.hash !in s.files)
    ensures Counted(Next(s, e))
    ensures h in Next(s, e).scheduled && Next(s, e).scheduled[h].Reassign? ==>
              h in s.scheduled && Next(s, e).scheduled[h] == s.scheduled[h]
  {
    if e.EvReport? {
      ReportKeepsRounds(s, e.who, e.hashes, h);
    } else {
      if e.EvDelete? {
        DeleteKeepsRounds(s, e.who, e.hashes, e.bucket);
      }
      assert Next(s, e).deals == s.deals && Next(s, e).scheduled == s.scheduled;
      forall k ensures CountedAt(Next(s, e), k) {
        assert CountedAt(s, k);
      }
    }
  }

  // ----- Runs

  /** How often the first-stage call of a file's deal has fallen due since the deal was opened, `n` times before. */
  function Due(s: State, e: Event, h: Hash, n: nat): nat {
    if Opens(s, e, h) then 0 else if FallsDue(s, e, h) then n + 1 else n
  }

  function TotalDue(s: State, es: seq<Event>, h: Hash, n: nat): nat
    decreases |es|
  {
    if es == [] then n else TotalDue(Next(s, es[0]), es[1..], h, Due(s, es[0], h, n))
  }

  /** The round a first-stage call waits for is the number of those that fell due, plus one. */
  ghost predicate InRound(s: State, h: Hash, n: nat) {
    Counted(s) && n <= 5 && (h in s.scheduled && s.scheduled[h].Reassign? ==> s.scheduled[h].count == n + 1)
  }

  lemma NextRound(s: State, e: Event, h: Hash, n: nat)
    requires InRound(s, h, n)
    ensures InRound(Next(s, e), h, Due(s, e, h, n))
  {
    if Step(s, e).Some? {
      if e.EvDeclare? && e.hash !in s.files {
        OpensFirstRound(s, e, e.hash);
        CountedElsewhere(s, Next(s, e), e.hash);
        if e.hash != h {
          SameElsewhereAt(s, Next(s, e), e.hash, h);
        }
      } else if e.EvFire? {
        FireKeepsRounds(s, e.hash, e.chosen, h, n);
      } else {
        OthersKeepRounds(s, e, h);
      }
    }
  }

  lemma SameElsewhereAt(s: State, s': State, h: Hash, k: Hash)
    requires s'.scheduled - {h} == s.scheduled - {h} && k != h
    ensures k in s'.scheduled <==> k in s.scheduled
    ensures k in s.scheduled ==> s'.scheduled[k] == s.scheduled[k]
  {
    assert k in s'.scheduled - {h} <==> k in s.scheduled - {h};
    assert k in s.scheduled ==> s'.scheduled[k] == (s'.scheduled - {h})[k] == (s.scheduled - {h})[k];
  }

  lemma FireKeepsRounds(s: State, h: Hash, chosen: seq<Candidate>, k: Hash, n: nat)
    requires InRound(s, k, n) && h in s.scheduled
    ensures InRound(Next(s, EvFire(h, chosen)), k, Due(s, EvFire(h, chosen), k, n))
  {
    var s' := Next(s, EvFire(h, chosen));
    assert CountedAt(s, h);
    if s.scheduled[h].Reassign? {
      FireAdvances(s, h, chosen);
    } else {
      FinishKeepsRounds(s, h, chosen);
    }
    CountedElsewhere(s, s', h);
    if k != h {
      SameElsewhereAt(s, s', h, k);
    }
  }

  lemma {:induction false} RunInRounds(s: State, es: seq<Event>, h: Hash, n: nat)
    requires InRound(s, h, n)
    ensures InRound(Run(s, es), h, TotalDue(s, es, h, n))
    decreases |es|
  {
    if es != [] {
      NextRound(s, es[0], h, n);
      RunInRounds(Next(s, es[0]), es[1..], h, Due(s, es[0], h, n));
    }
  }

  /**
   * A deal looks for miners in five rounds at most: in every run, the first-stage call of a deal has fallen due at most
   * five times since the deal was opened, and when it is scheduled it is for the round after those, no later than the
   * fifth, with its deal still there.
   */
  lemma FiveRounds(s: State, es: seq<Event>, h: Hash)
    requires IsGenesis(s)
    ensures TotalDue(s, es, h, 0) <= 5
    ensures var r := Run(s, es);
            h in r.scheduled && r.scheduled[h].Reassign? ==>
              && h in r.deals && r.deals[h].count == TotalDue(s, es, h, 0)
              && r.scheduled[h].count == TotalDue(s, es, h, 0) + 1 <= 5
  {
    RunInRounds(s, es, h, 0);
    assert CountedAt(Run(s, es), h);
  }

  /**
   * The fifth round is the last: when it falls due, the deal is gone, its miners are free and its space is unlocked for
   * the user, exactly when the user still has it locked; in no case is another round scheduled.
   */
  lemma FifthRoundEnds(s: State, es: seq<Event>, h: Hash, chosen: seq<Candidate>)
    requires IsGenesis(s) && Awaits(Run(s, es), h, 5)
    ensures var r, r' := Run(s, es), Next(Run(s, es), EvFire(h, chosen));
            && h in r.deals && h !in r'.scheduled
            && (h !in r'.deals <==> Needed(|r.deals[h].segments|) <= Lockable(s, es, r.deals[h].user))
            && (h !in r'.deals ==> UserLocked(r', r.deals[h].user)
                                   == UserLocked(r, r.deals[h].user) - Needed(|r.deals[h].segments|))
  {
    var r := Run(s, es);
    FiveRounds(s, es, h);
    FireAdvances(r, h, chosen);
    ExpirySucceedsIff(s, es, h, 5, chosen);
    FreedReassigns(r, h, chosen);
  }

  lemma FreedReassigns(r: State, h: Hash, chosen: seq<Candidate>)
    requires h in r.deals
    ensures var freed := r.(scheduled := r.scheduled - {h});
            && (ReassignDeal(freed, h, 5, chosen).Some? <==> ReassignDeal(r, h, 5, chosen).Some?)
            && (ReassignDeal(freed, h, 5, chosen).Some? ==>
                  && h !in ReassignDeal(freed, h, 5, chosen).value.deals
                  && UserLocked(ReassignDeal(freed, h, 5, chosen).value, r.deals[h].user)
                     == UserLocked(r, r.deals[h].user) - Needed(|r.deals[h].segments|))
  {
  }

  // ----- Reports

  /** Who has reported a deal since its miners were last assigned, `reporters` before the call. */
  function Reporting(s: State, e: Event, h: Hash, reporters: set<Account>): set<Account> {
    if Opens(s, e, h) || (FallsDue(s, e, h) && h in Next(s, e).scheduled) then {}
    else if e.EvReport? && Step(s, e).Some? && h in e.hashes && h in s.deals && Assignee(s.deals[h].tasks, e.who)
    then reporters + {e.who}
    else reporters
  }

  function AllReporting(s: State, es: seq<Event>, h: Hash, reporters: set<Account>): set<Account>
    decreases |es|
  {
    if es == [] then reporters else AllReporting(Next(s, es[0]), es[1..], h, Reporting(s, es[0], h, reporters))
  }

  function Members(xs: seq<Account>): set<Account> {
    if xs == [] then {} else {xs[0]} + Members(xs[1..])
  }

  lemma {:induction false} MembersAre(xs: seq<Account>, a: Account)
    ensures a in Members(xs) <==> a in xs
  {
    if xs != [] {
      MembersAre(xs[1..], a);
    }
  }

  lemma {:induction false} MembersAppend(xs: seq<Account>, a: Account)
    ensures Members(xs + [a]) == Members(xs) + {a}
  {
    if xs == [] {
      assert [] + [a] == [a] && [a][1..] == [];
    } else {
      assert (xs + [a])[1..] == xs[1..] + [a];
      MembersAppend(xs[1..], a);
    }
  }

  /** The deal lists each reporter once, all of them assigned to it, and is complete as soon as all have reported. */
  ghost predicate Attended(s: State, h: Hash, reporters: set<Account>) {
    h in s.deals ==>
      var deal := s.deals[h];
      && Distinct(deal.complete) && Members(deal.complete) == reporters
      && (forall a :: a in deal.complete ==> Assignee(deal.tasks, a))
      && (deal.stage == 1 ==> |deal.complete| < |deal.tasks|)
  }

  /** Each report is recorded; the last one completes the deal, any other changes nothing else. */
  lemma ReportIsRecorded(s: State, who: Account, h: Hash)
    requires h in s.deals && Assignee(s.deals[h].tasks, who) && ReportOne(s, who, h).Some?
    ensures var s', deal := ReportOne(s, who, h).value, s.deals[h];
            var complete := if who in deal.complete then deal.complete else deal.complete + [who];
            if |complete| == |deal.tasks|
            then s'.deals == s.deals[h := deal.(complete := complete, stage := 2)] && h in s'.files
            else s' == s.(deals := s.deals[h := deal.(complete := complete)])
  {
  }

  lemma {:induction false} MembersOfDistinct(xs: seq<Account>)
    requires Distinct(xs)
    ensures |Members(xs)| == |xs|
  {
    if xs != [] {
      MembersOfDistinct(xs[1..]);
      MembersAre(xs[1..], xs[0]);
    }
  }

  function Miners(tasks: seq<Task>): set<Account> {
    if tasks == [] then {} else {tasks[0].miner} + Miners(tasks[1..])
  }

  lemma {:induction false} MinersAreAssignees(tasks: seq<Task>, i: nat)
    requires i < |tasks|
    ensures tasks[i].miner in Miners(tasks) && |Miners(tasks)| <= |tasks|
  {
    if |tasks| > 1 {
      MinersAreAssignees(tasks[1..], if i == 0 then 0 else i - 1);
    }
  }

  lemma {:induction false} SubsetIsSmaller(a: set<Account>, b: set<Account>)
    requires a <= b
    ensures |a| <= |b|
  {
    if a != {} {
      var x :| x in a;
      SubsetIsSmaller(a - {x}, b - {x});
    }
  }

  /** No more can report than are assigned. */
  lemma ReportersFit(complete: seq<Account>, tasks: seq<Task>)
    requires Distinct(complete) && forall a :: a in complete ==> Assignee(tasks, a)
    ensures |complete| <= |tasks|
  {
    if complete != [] {
      forall a | a in Members(complete) ensures a in Miners(tasks) && |Miners(tasks)| <= |tasks| {
        MembersAre(complete, a);
        var i :| 0 <= i < |tasks| && tasks[i].miner == a;
        MinersAreAssignees(tasks, i);
      }
      assert complete[0] in Members(complete);
      MembersOfDistinct(complete);
      SubsetIsSmaller(Members(complete), Miners(tasks));
    }
  }

  /** The list of reporters with one more report. */
  lemma OneMoreReporter(complete: seq<Account>, who: Account, tasks: seq<Task>)
    requires Distinct(complete) && forall a :: a in complete ==> Assignee(tasks, a)
    requires Assignee(tasks, who)
    ensures var next := if who in complete then complete else complete + [who];
            && Distinct(next) && Members(next) == Members(complete) + {who} && |next| <= |tasks|
            && forall a :: a in next ==> Assignee(tasks, a)
  {
    if who in complete {
      MembersAre(complete, who);
      ReportersFit(complete, tasks);
    } else {
      MembersAppend(complete, who);
      ReportersFit(complete + [who], tasks);
    }
  }

  lemma ReportAttendsOne(s: State, who: Account, k: Hash, h: Hash, reporters: set<Account>)
    requires h in s.deals && Attended(s, h, reporters) && ReportOne(s, who, k).Some?
    ensures var s' := ReportOne(s, who, k).value;
            && h in s'.deals && s'.deals[h].tasks == s.deals[h].tasks
            && Attended(s', h, if h == k && Assignee(s.deals[h].tasks, who) then reporters + {who} else reporters)
  {
    if k in s.deals && Assignee(s.deals[k].tasks, who) {
      ReportIsRecorded(s, who, k);
      var s' := ReportOne(s, who, k).value;
      if h == k {
        OneMoreReporter(s.deals[h].complete, who, s.deals[h].tasks);
      } else {
        assert s'.deals == s.deals[k := s'.deals[k]];
      }
    }
  }

  lemma {:induction false} ReportAttends(s: State, who: Account, hashes: seq<Hash>, h: Hash, reporters: set<Account>)
    requires Attended(s, h, reporters) && Report(s, who, hashes).Some?
    ensures var s' := Report(s, who, hashes).value;
            && (h in s'.deals <==> h in s.deals)
            && Attended(s', h, if h in hashes && h in s.deals && Assignee(s.deals[h].tasks, who)
                               then reporters + {who} else reporters)
    decreases |hashes|
  {
    if hashes != [] {
      var s', k := ReportOne(s, who, hashes[0]).value, hashes[0];
      assert hashes == [k] + hashes[1..];
      if h in s.deals {
        ReportAttendsOne(s, who, k, h, reporters);
        var next := if h == k && Assignee(s.deals[h].tasks, who) then reporters + {who} else reporters;
        ReportAttends(s', who, hashes[1..], h, next);
        assert next + {who} == reporters + {who};
      } else {
        ReportAttends(s', who, hashes[1..], h, reporters);
      }
    }
  }

  lemma AttendedElsewhere(s: State, s': State, k: Hash, h: Hash, reporters: set<Account>)
    requires Attended(s, h, reporters) && s'.deals - {k} == s.deals - {k} && h != k
    ensures Attended(s', h, reporters)
  {
    assert h in s'.deals - {k} <==> h in s.deals - {k};
    assert h in s.deals ==> s'.deals[h] == (s'.deals - {k})[h] == (s.deals - {k})[h];
  }

  lemma OpensUnattended(s: State, e: Event, h: Hash)
    requires Opens(s, e, h)
    ensures Attended(Next(s, e), h, {})
  {
    OpensFirstRound(s, e, h);
    AssignedTasks(e.segments, e.chosen);
  }

  lemma AssignedTasks(segments: seq<Segment>, chosen: seq<Candidate>)
    requires |chosen| > 0 && Assigned(segments, chosen).Some?
    ensures |Assigned(segments, chosen).value| == |chosen|
  {
    AllocationIsExact(Capacities(Idles(chosen)), segments);
  }

  lemma FireAttends(s: State, k: Hash, chosen: seq<Candidate>, h: Hash, reporters: set<Account>)
    requires Counted(s) && Attended(s, h, reporters) && k in s.scheduled
    ensures Attended(Next(s, EvFire(k, chosen)), h, Reporting(s, EvFire(k, chosen), h, reporters))
  {
    var s' := Next(s, EvFire(k, chosen));
    assert CountedAt(s, k);
    if s.scheduled[k].Reassign? {
      FireAdvances(s, k, chosen);
      if k == h && h in s'.scheduled {
        AssignedTasks(s.deals[h].segments, chosen);
      }
    } else {
      FinishKeepsRounds(s, k, chosen);
    }
    if h != k {
      AttendedElsewhere(s, s', k, h, reporters);
    }
  }

  lemma NextAttends(s: State, e: Event, h: Hash, reporters: set<Account>)
    requires Counted(s) && Attended(s, h, reporters)
    ensures Attended(Next(s, e), h, Reporting(s, e, h, reporters))
  {
    if Step(s, e).Some? {
      if e.EvDeclare? && e.hash !in s.files {
        if e.hash == h {
          OpensUnattended(s, e, h);
        } else {
          OpensFirstRound(s, e, e.hash);
          AttendedElsewhere(s, Next(s, e), e.hash, h, reporters);
        }
      } else if e.EvFire? {
        FireAttends(s, e.hash, e.chosen, h, reporters);
      } else if e.EvReport? {
        ReportAttends(s, e.who, e.hashes, h, reporters);
      } else {
        DealsStay(s, e);
      }
    }
  }

  lemma DealsStay(s: State, e: Event)
    requires Step(s, e).Some? && !e.EvFire? && !e.EvReport? && !(e.EvDeclare? && e.hash !in s.files)
    ensures Next(s, e).deals == s.deals
  {
    if e.EvDelete? {
      DeleteKeepsRounds(s, e.who, e.hashes, e.bucket);
    }
  }

  lemma {:induction false} RunAttends(s: State, es: seq<Event>, h: Hash, n: nat, reporters: set<Account>)
    requires InRound(s, h, n) && Attended(s, h, reporters)
    ensures Attended(Run(s, es), h, AllReporting(s, es, h, reporters))
    decreases |es|
  {
    if es != [] {
      NextRound(s, es[0], h, n);
      NextAttends(s, es[0], h, reporters);
      RunAttends(Next(s, es[0]), es[1..], h, Due(s, es[0], h, n), Reporting(s, es[0], h, reporters));
    }
  }

  /**
   * A deal completes when all have reported: in every run it lists exactly the miners that have reported it since they
   * were assigned, and while it is in its first stage fewer have reported than are assigned.
   */
  lemma DealsKnowTheirReporters(s: State, es: seq<Event>, h: Hash)
    requires IsGenesis(s) && h in Run(s, es).deals
    ensures var deal, reporters := Run(s, es).deals[h], AllReporting(s, es, h, {});
            && (forall a :: a in reporters <==> a in deal.complete)
            && (forall a :: a in reporters ==> Assignee(deal.tasks, a))
            && |reporters| == |deal.complete| <= |deal.tasks|
            && (deal.stage == 1 ==> |reporters| < |deal.tasks|)
  {
    RunAttends(s, es, h, 0, {});
    var deal := Run(s, es).deals[h];
    forall a ensures a in Members(deal.complete) <==> a in deal.complete {
      MembersAre(deal.complete, a);
    }
    MembersOfDistinct(deal.complete);
    ReportersFit(deal.complete, deal.tasks);
  }

}

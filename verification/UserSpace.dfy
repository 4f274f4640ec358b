/** The purchased space of a user: used, locked for open deals, and remaining. */
module UserSpace {
  import opened Base

  datatype Space = Space(total: nat, used: nat, locked: nat, remaining: nat, frozen: bool) {
    /** The parts account for everything bought. */
    predicate Adds() {
      total == used + locked + remaining
    }

    /** What the parts count beyond what was bought. */
    function Excess(): int {
      used + locked + remaining - total
    }
  }

  function Bought(size: nat): Space {
    Space(size, 0, 0, size, false)
  }

  function Expand(s: Space, size: nat): Option<Space> {
    if s.frozen then None else Some(s.(remaining := s.remaining + size, total := s.total + size))
  }

  /** Operation 1: use space directly. */
  function Use(s: Space, size: nat): Option<Space> {
    if s.frozen || size > s.remaining then None
    else Some(s.(used := s.used + size, remaining := s.remaining - size))
  }

  /** Operation 2: give used space back. The remaining space is recomputed without the locked part. */
  function Release(s: Space, size: nat): Option<Space> {
    if size > s.used || s.total < s.used - size then None
    else Some(s.(used := s.used - size, remaining := s.total - (s.used - size)))
  }

  function Lock(s: Space, size: nat): Option<Space> {
    if s.frozen || s.remaining < size then None
    else Some(s.(locked := s.locked + size, remaining := s.remaining - size))
  }

  function Unlock(s: Space, size: nat): Option<Space> {
    if s.locked < size then None
    else Some(s.(locked := s.locked - size, remaining := s.remaining + size))
  }

  function UnlockAndUse(s: Space, size: nat): Option<Space> {
    if s.locked < size then None
    else Some(s.(locked := s.locked - size, used := s.used + size))
  }

  datatype Op =
    | OpUse(size: nat)
    | OpRelease(size: nat)
    | OpLock(size: nat)
    | OpUnlock(size: nat)
    | OpUnlockAndUse(size: nat)
    | OpExpand(size: nat)
    | OpFreeze(frozen: bool)

  function Do(s: Space, op: Op): Option<Space> {
    match op
    case OpUse(n) => Use(s, n)
    case OpRelease(n) => Release(s, n)
    case OpLock(n) => Lock(s, n)
    case OpUnlock(n) => Unlock(s, n)
    case OpUnlockAndUse(n) => UnlockAndUse(s, n)
    case OpExpand(n) => Expand(s, n)
    case OpFreeze(frozen) => Some(s.(frozen := frozen))
  }

  /** A run of operations; a refused one changes nothing. */
  function Run(s: Space, ops: seq<Op>): Space
    decreases |ops|
  {
    if ops == [] then s
    else Run(if Do(s, ops[0]).Some? then Do(s, ops[0]).value else s, ops[1..])
  }

  /** What was locked at the last release of a run that went through, or `before` if none did. */
  function LockedAtLastRelease(s: Space, ops: seq<Op>, before: nat): nat
    decreases |ops|
  {
    if ops == [] then before
    else
      var r := Do(s, ops[0]);
      if r.None? then LockedAtLastRelease(s, ops[1..], before)
      else LockedAtLastRelease(r.value, ops[1..], if ops[0].OpRelease? then s.locked else before)
  }

  /** Beyond the total, the parts count exactly what was locked when space was last released. */
  lemma {:induction false} ExcessIsLockedAtLastRelease(s: Space, ops: seq<Op>, excess: nat)
    requires s.used + s.locked + s.remaining == s.total + excess
    ensures var r := Run(s, ops);
            r.used + r.locked + r.remaining == r.total + LockedAtLastRelease(s, ops, excess)
    decreases |ops|
  {
    if ops != [] {
      var r := Do(s, ops[0]);
      if r.None? {
        ExcessIsLockedAtLastRelease(s, ops[1..], excess);
      } else {
        ExcessIsLockedAtLastRelease(r.value, ops[1..], if ops[0].OpRelease? then s.locked else excess);
      }
    }
  }

  /** The parts of an account add up to what was bought exactly when nothing was locked at the last release. */
  lemma PartsAddUpIff(s: Space, ops: seq<Op>)
    requires s.Adds()
    ensures Run(s, ops).Adds() <==> LockedAtLastRelease(s, ops, 0) == 0
  {
    ExcessIsLockedAtLastRelease(s, ops, 0);
  }

  /** Deleting one of two files while a third is being uploaded lets 30 units of a purchase of 20 be in play. */
  lemma ReleaseCanOverbook()
    ensures var s := Run(Space(20, 0, 0, 20, false), [OpUse(10), OpLock(10), OpRelease(10)]);
            s.locked == 10 && s.remaining == 20 && s.total == 20
  {
    var ops := [OpUse(10), OpLock(10), OpRelease(10)];
    assert ops[1..] == [OpLock(10), OpRelease(10)] && ops[1..][1..] == [OpRelease(10)] && ops[1..][1..][1..] == [];
    var s1 := Space(20, 10, 0, 10, false);
    var s2 := Space(20, 10, 10, 0, false);
    assert Run(s2, ops[1..][1..]) == Space(20, 0, 10, 20, false);
    assert Run(s1, ops[1..]) == Run(s2, ops[1..][1..]);
  }

  /**
   * An overbooked account can get stuck: any part `k` of a purchase, used, given back while as much is locked, and the
   * whole purchase used beside it, leave more in use than was bought. Then less than `k` cannot be given back.
   */
  lemma OverbookedCannotRelease(size: nat, k: nat, n: nat)
    requires 2 * k <= size
    ensures var r := Run(Bought(size), [OpUse(k), OpLock(k), OpRelease(k), OpUse(size), OpUnlockAndUse(k)]);
            r.used == size + k && (Release(r, n).Some? <==> k <= n <= r.used)
  {
    var ops := [OpUse(k), OpLock(k), OpRelease(k), OpUse(size), OpUnlockAndUse(k)];
    var s1 := Space(size, k, 0, size - k, false);
    var s2 := Space(size, k, k, size - k - k, false);
    var s3 := Space(size, 0, k, size, false);
    var s4 := Space(size, size, k, 0, false);
    assert Run(s4, ops[4..]) == Space(size, size + k, 0, 0, false) by {
      assert ops[4..][1..] == [];
    }
    assert Run(s3, ops[3..]) == Run(s4, ops[4..]) by {
      assert ops[3..][1..] == ops[4..];
    }
    assert Run(s2, ops[2..]) == Run(s3, ops[3..]) by {
      assert ops[2..][1..] == ops[3..];
    }
    assert Run(s1, ops[1..]) == Run(s2, ops[2..]) by {
      assert ops[1..][1..] == ops[2..];
    }
    assert Run(Bought(size), ops) == Run(s1, ops[1..]);
  }

  /** A frozen account can only give back: what needs new space is refused, everything else goes on as before. */
  lemma FrozenOnlyGivesBack(s: Space, op: Op)
    ensures op.OpUse? || op.OpLock? || op.OpExpand? ==>
              (Do(s, op).Some? <==> !s.frozen && Do(s.(frozen := false), op).Some?)
    ensures op.OpExpand? ==> Do(s.(frozen := false), op).Some?
    ensures op.OpRelease? || op.OpUnlock? || op.OpUnlockAndUse? ==>
              (Do(s, op).Some? <==> Do(s.(frozen := false), op).Some?)
    ensures op.OpFreeze? ==> Do(s, op).Some? && Do(s, op).value == s.(frozen := op.frozen)
  {
  }

  /** Locking is undone by unlocking, and using what was locked is using it directly. */
  lemma LockRoundTrips(s: Space, size: nat)
    requires Lock(s, size).Some?
    ensures Unlock(Lock(s, size).value, size) == Some(s)
    ensures UnlockAndUse(Lock(s, size).value, size) == Use(s, size)
  {
  }

  // ----- The storage item, updated in place

  /**
   * The purchased space of every user. Each call says when it fails, then changing nothing; otherwise how it moves the
   * bought, used and locked parts of the one account it touches, and how it moves their excess, which fixes the rest.
   */
  class StorageHandler {
    var spaces: map<Account, Space>

    constructor ()
      ensures spaces == map[]
    {
      spaces := map[];
    }

    /** Only one account differs. */
    twostate predicate OnlyAt(who: Account)
      reads this
    {
      && who in spaces && who in old(spaces)
      && spaces.Keys == old(spaces).Keys
      && forall a :: a in spaces && a != who ==> spaces[a] == old(spaces)[a]
    }

    /** Operation 1 uses space, operation 2 gives it back, any other code is refused. */
    method UpdateUserSpace(who: Account, operation: nat, size: nat) returns (ok: bool)
      modifies this
      ensures ok <==> who in old(spaces) && var s := old(spaces)[who];
                      || (operation == 1 && !s.frozen && size <= s.remaining)
                      || (operation == 2 && size <= s.used <= s.total + size)
      ensures !ok ==> spaces == old(spaces)
      ensures ok ==> OnlyAt(who) && var s, s' := old(spaces)[who], spaces[who];
                     && s' == s.(used := s'.used, remaining := s'.remaining)
                     && s'.used == (if operation == 1 then s.used + size else s.used - size)
                     && s'.Excess() == (if operation == 1 then s.Excess() else s.locked)
    {
      if who !in spaces || (operation != 1 && operation != 2) {
        return false;
      }
      var s := spaces[who];
      if operation == 1 {
        if s.frozen || size > s.remaining {
          return false;
        }
        s := s.(used := s.used + size);
        s := s.(remaining := s.remaining - size);
      } else {
        if size > s.used || s.total < s.used - size {
          return false;
        }
        s := s.(used := s.used - size);
        s := s.(remaining := s.total - s.used);
      }
      spaces := spaces[who := s];
      return true;
    }

    method LockUserSpace(who: Account, needed: nat) returns (ok: bool)
      modifies this
      ensures ok <==> who in old(spaces) && !old(spaces)[who].frozen && needed <= old(spaces)[who].remaining
      ensures !ok ==> spaces == old(spaces)
      ensures ok ==> OnlyAt(who) && var s, s' := old(spaces)[who], spaces[who];
                     && s' == s.(locked := s.locked + needed, remaining := s'.remaining)
                     && s'.Excess() == s.Excess()
                     && Unlock(s', needed) == Some(s)
    {
      if who !in spaces || spaces[who].frozen || spaces[who].remaining < needed {
        return false;
      }
      var s := spaces[who];
      s := s.(locked := s.locked + needed);
      s := s.(remaining := s.remaining - needed);
      spaces := spaces[who := s];
      return true;
    }

    /** Asks neither whether the lease is frozen nor what was locked, only that so much is. */
    method UnlockUserSpace(who: Account, needed: nat) returns (ok: bool)
      modifies this
      ensures ok <==> who in old(spaces) && needed <= old(spaces)[who].locked
      ensures !ok ==> spaces == old(spaces)
      ensures ok ==> OnlyAt(who) && var s, s' := old(spaces)[who], spaces[who];
                     && s' == s.(locked := s.locked - needed, remaining := s'.remaining)
                     && s'.Excess() == s.Excess()
                     && (!s.frozen ==> Lock(s', needed) == Some(s))
    {
      if who !in spaces || spaces[who].locked < needed {
        return false;
      }
      var s := spaces[who];
      s := s.(locked := s.locked - needed);
      s := s.(remaining := s.remaining + needed);
      spaces := spaces[who := s];
      return true;
    }

    method UnlockAndUsedUserSpace(who: Account, needed: nat) returns (ok: bool)
      modifies this
      ensures ok <==> who in old(spaces) && needed <= old(spaces)[who].locked
      ensures !ok ==> spaces == old(spaces)
      ensures ok ==> OnlyAt(who) && var s, s' := old(spaces)[who], spaces[who];
                     && s' == s.(locked := s.locked - needed, used := s'.used)
                     && s'.Excess() == s.Excess()
                     && (!s.frozen ==> Use(Unlock(s, needed).value, needed) == Some(s'))
    {
      if who !in spaces || spaces[who].locked < needed {
        return false;
      }
      var s := spaces[who];
      s := s.(locked := s.locked - needed);
      s := s.(used := s.used + needed);
      spaces := spaces[who := s];
      return true;
    }
  }
}

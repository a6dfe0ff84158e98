/**
 * The global granule table: a fixed array of descriptors whose fields the
 * granule operations update in place. Each method is proved to leave the
 * array exactly as the matching function of `GranuleDescriptor` or
 * `GranuleTableSpec` says, applied to the array's contents before the call.
 */
module Granules {
  import opened GranuleAddress
  import D = GranuleDescriptor
  import Spec = GranuleTableSpec

  class GranuleTable {
    /** The descriptor array, indexed by `AddrToGranule`. */
    const granules: array<D.Granule>

    ghost predicate Valid()
      reads this
    {
      granules.Length == NR_GRANULES
    }

    /** The table as set up at start-up, and as the test teardown leaves it: every descriptor zero. */
    constructor ()
      ensures Valid() && fresh(granules)
      ensures forall j :: 0 <= j < granules.Length ==> granules[j] == D.Zeroed
    {
      granules := new D.Granule[NR_GRANULES](_ => D.Zeroed);
    }

    /** `granule_get_state`: the role of descriptor `i`. */
    function GetState(i: nat): (s: D.GranuleState)
      reads this, granules
      requires Valid() && i < NR_GRANULES
      ensures s == granules[i].state
    {
      granules[i].state
    }

    /** `granule_set_state`: the role of descriptor `i` becomes `s`; nothing else changes. */
    method SetState(i: nat, s: D.GranuleState)
      requires Valid() && i < NR_GRANULES
      modifies granules
      ensures granules[..] == old(granules[..])[i := D.WithState(old(granules[i]), s)]
      ensures GetState(i) == s && granules[i].lock == old(granules[i].lock)
    {
      granules[i] := D.WithState(granules[i], s);
    }

    /**
     * `granule_lock`: takes the lock of descriptor `i`. The caller must know
     * the role: a role other than `expected` is a fatal assertion.
     */
    method Lock(i: nat, expected: D.GranuleState)
      requires Valid() && i < NR_GRANULES
      requires granules[i].state == expected
      modifies granules
      ensures granules[..] == old(granules[..])[i := D.Acquire(old(granules[i]))]
      ensures granules[i].IsLocked() && granules[i].state == expected
    {
      granules[i] := D.Acquire(granules[i]);
    }

    /** `granule_lock_on_state_match`: locks descriptor `i` only if its role is `expected`. */
    method LockOnStateMatch(i: nat, expected: D.GranuleState) returns (matched: bool)
      requires Valid() && i < NR_GRANULES
      modifies granules
      ensures var r := Spec.LockOnStateMatch(old(granules[..]), i, expected);
              matched == r.matched && granules[..] == r.table
    {
      granules[i] := D.Acquire(granules[i]);
      matched := granules[i].state == expected;
      if !matched {
        granules[i] := D.Release(granules[i]);
      }
    }

    /** `granule_unlock`: releases the lock of descriptor `i`, keeping its role. */
    method Unlock(i: nat)
      requires Valid() && i < NR_GRANULES
      modifies granules
      ensures granules[..] == old(granules[..])[i := D.Release(old(granules[i]))]
      ensures !granules[i].IsLocked() && GetState(i) == old(GetState(i))
    {
      granules[i] := D.Release(granules[i]);
    }

    /** `granule_unlock_transition`: sets the role of descriptor `i` to `s`, then releases it. */
    method UnlockTransition(i: nat, s: D.GranuleState)
      requires Valid() && i < NR_GRANULES
      modifies granules
      ensures granules[..] == old(granules[..])[i := D.UnlockTransition(old(granules[i]), s)]
      ensures !granules[i].IsLocked() && GetState(i) == s
    {
      SetState(i, s);
      Unlock(i);
    }

    /** `find_lock_granule`: `find_granule`, then `granule_lock_on_state_match`. */
    method FindLockGranule(addr: nat, expected: D.GranuleState) returns (g: Option<nat>)
      requires Valid()
      modifies granules
      ensures var r := Spec.FindLockGranule(old(granules[..]), addr, expected);
              g == r.granule && granules[..] == r.table
    {
      var found := FindGranule(addr);
      if found.None? {
        return None;
      }
      var matched := LockOnStateMatch(found.value, expected);
      g := if matched then found else None;
    }

    /**
     * `find_lock_unused_granule`: `find_lock_granule`, then a read of the
     * reference count; a granule still referenced is unlocked again.
     */
    method FindLockUnusedGranule(addr: nat, expected: D.GranuleState) returns (outcome: Spec.UnusedOutcome)
      requires Valid()
      modifies granules
      ensures var r := Spec.FindLockUnusedGranule(old(granules[..]), addr, expected);
              outcome == r.outcome && granules[..] == r.table
    {
      var g := FindLockGranule(addr, expected);
      if g.None? {
        return Spec.ErrorInput;
      }
      var refs := RefcountReadAcquire(g.value);
      if refs != 0 {
        Unlock(g.value);
        return Spec.ErrorInUse;
      }
      outcome := Spec.Unused(g.value);
    }

    /**
     * The locking step of `find_lock_two_granules` for two distinct sorted
     * descriptors: `lo` first, then `hi`, giving `lo` up if `hi` does not match.
     */
    method LockOrdered(lo: nat, expectedLo: D.GranuleState, hi: nat, expectedHi: D.GranuleState)
      returns (matched: bool)
      requires Valid() && lo < hi < NR_GRANULES
      modifies granules
      ensures var r := Spec.LockOrdered(old(granules[..]), lo, expectedLo, hi, expectedHi);
              matched == r.matched && granules[..] == r.table
    {
      matched := LockOnStateMatch(lo, expectedLo);
      if !matched {
        return;
      }
      matched := LockOnStateMatch(hi, expectedHi);
      if !matched {
        Unlock(lo);
      }
    }

    /**
     * `find_lock_two_granules`: `slot1` and `slot2` are the contents of the
     * caller's output slots before the call; `g1` and `g2` are their
     * contents afterwards.
     */
    method FindLockTwoGranules(addr1: nat, expected1: D.GranuleState, slot1: Option<nat>,
                               addr2: nat, expected2: D.GranuleState, slot2: Option<nat>)
      returns (ok: bool, g1: Option<nat>, g2: Option<nat>)
      requires Valid()
      modifies granules
      ensures var r := Spec.FindLockTwoGranules(old(granules[..]), addr1, expected1, slot1, addr2, expected2, slot2);
              ok == r.ok && g1 == r.g1 && g2 == r.g2 && granules[..] == r.table
    {
      ok, g1, g2 := false, slot1, slot2;
      var found1, found2 := FindGranule(addr1), FindGranule(addr2);
      if found1.None? || found2.None? || addr1 == addr2 {
        return;
      }
      AddrToGranuleMonotone(addr1, addr2);
      var matched;
      if addr1 < addr2 {
        matched := LockOrdered(found1.value, expected1, found2.value, expected2);
      } else {
        matched := LockOrdered(found2.value, expected2, found1.value, expected1);
      }
      if matched {
        ok, g1, g2 := true, found1, found2;
      }
    }

    /** `granule_refcount_read_relaxed`: the stored reference count. */
    method RefcountReadRelaxed(i: nat) returns (refs: nat)
      requires Valid() && i < NR_GRANULES
      ensures refs == granules[i].refcount
    {
      refs := granules[i].refcount;
    }

    /** `granule_refcount_read_acquire`: the stored reference count. */
    method RefcountReadAcquire(i: nat) returns (refs: nat)
      requires Valid() && i < NR_GRANULES
      ensures refs == granules[i].refcount
    {
      refs := granules[i].refcount;
    }

    /** `__granule_get`: one more reference; the tests call it on unlocked granules, so no lock is required. */
    method Get(i: nat)
      requires Valid() && i < NR_GRANULES
      modifies granules
      ensures granules[..] == old(granules[..])[i := D.RefGet(old(granules[i]))]
    {
      granules[i] := D.RefGet(granules[i]);
    }

    /** `__granule_put`: one reference fewer, no lock required; dropping a reference that is not there is fatal. */
    method Put(i: nat)
      requires Valid() && i < NR_GRANULES
      requires granules[i].refcount >= 1
      modifies granules
      ensures granules[..] == old(granules[..])[i := D.RefPut(old(granules[i]))]
    {
      granules[i] := D.RefPut(granules[i]);
    }

    /** `__granule_refcount_inc`: `v` more references, no lock required. */
    method RefcountInc(i: nat, v: nat)
      requires Valid() && i < NR_GRANULES
      modifies granules
      ensures granules[..] == old(granules[..])[i := D.RefcountInc(old(granules[i]), v)]
    {
      granules[i] := D.RefcountInc(granules[i], v);
    }

    /** `__granule_refcount_dec`: `v` references fewer, no lock required; more than the count is fatal. */
    method RefcountDec(i: nat, v: nat)
      requires Valid() && i < NR_GRANULES
      requires granules[i].refcount >= v
      modifies granules
      ensures granules[..] == old(granules[..])[i := D.RefcountDec(old(granules[i]), v)]
    {
      granules[i] := D.RefcountDec(granules[i], v);
    }

    /** `atomic_granule_get`: one more reference, without the lock. */
    method AtomicGet(i: nat)
      requires Valid() && i < NR_GRANULES
      modifies granules
      ensures granules[..] == old(granules[..])[i := D.RefGet(old(granules[i]))]
    {
      granules[i] := D.RefGet(granules[i]);
    }

    /** `atomic_granule_put`: one reference fewer, without the lock. */
    method AtomicPut(i: nat)
      requires Valid() && i < NR_GRANULES
      requires granules[i].refcount >= 1
      modifies granules
      ensures granules[..] == old(granules[..])[i := D.RefPut(old(granules[i]))]
    {
      granules[i] := D.RefPut(granules[i]);
    }

    /** `atomic_granule_put_release`: one reference fewer; an underflow is a fatal assertion. */
    method AtomicPutRelease(i: nat)
      requires Valid() && i < NR_GRANULES
      requires granules[i].refcount >= 1
      modifies granules
      ensures granules[..] == old(granules[..])[i := D.RefPut(old(granules[i]))]
    {
      granules[i] := D.RefPut(granules[i]);
    }
  }
}

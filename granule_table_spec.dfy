/**
 * What the acquisition operations do to the whole descriptor table, as
 * functions of the table's contents before the call. The `GranuleTable`
 * class methods are proved to change the table exactly as these say.
 */
module GranuleTableSpec {
  import opened GranuleAddress
  import opened GranuleDescriptor

  /** The contents of the descriptor table, indexed like the global array. */
  type Table = seq<Granule>

  predicate WellFormed(t: Table)
  {
    |t| == NR_GRANULES
  }

  /** `u` differs from `t` at most in the lock words: no role and no count changed. */
  predicate OnlyLocksChanged(t: Table, u: Table)
  {
    |u| == |t| &&
    forall j :: 0 <= j < |t| ==> u[j].state == t[j].state && u[j].refcount == t[j].refcount
  }

  /** `u` agrees with `t` everywhere except possibly at the indices in `touched`. */
  predicate UnchangedExcept(t: Table, u: Table, touched: set<nat>)
  {
    |u| == |t| &&
    forall j :: 0 <= j < |t| && j !in touched ==> u[j] == t[j]
  }

  datatype MatchResult = MatchResult(matched: bool, table: Table)

  /**
   * `granule_lock_on_state_match`: takes the lock of descriptor `i`; if its
   * role is not `expected` the lock is given up again and the answer is no.
   */
  function LockOnStateMatch(t: Table, i: nat, expected: GranuleState): (r: MatchResult)
    requires i < |t|
    ensures r.matched <==> t[i].state == expected
    ensures OnlyLocksChanged(t, r.table) && UnchangedExcept(t, r.table, {i})
    ensures r.table[i].IsLocked() <==> r.matched
  {
    var held := t[i := Acquire(t[i])];
    if t[i].state == expected then MatchResult(true, held)
    else MatchResult(false, held[i := Release(held[i])])
  }

  datatype FindResult = FindResult(granule: Option<nat>, table: Table)

  /**
   * `find_lock_granule`: the validating lookup followed by
   * `granule_lock_on_state_match`. It yields the descriptor, locked, when
   * the address is a granule address whose role is `expected`, and nothing
   * otherwise; a rejected address leaves the table as it was, and a role
   * mismatch leaves the descriptor unlocked.
   */
  function FindLockGranule(t: Table, addr: nat, expected: GranuleState): (r: FindResult)
    requires WellFormed(t)
    ensures OnlyLocksChanged(t, r.table)
    ensures r.granule.Some? <==> IsGranuleAddr(addr) && t[AddrToGranule(addr)].state == expected
    ensures r.granule.Some? ==> r.granule == FindGranule(addr) && r.table[r.granule.value].IsLocked()
    ensures !IsGranuleAddr(addr) ==> r.table == t
    ensures IsGranuleAddr(addr) ==>
              UnchangedExcept(t, r.table, {AddrToGranule(addr)}) &&
              (r.granule.None? ==> !r.table[AddrToGranule(addr)].IsLocked())
  {
    match FindGranule(addr)
    case None => FindResult(None, t)
    case Some(i) =>
      var m := LockOnStateMatch(t, i, expected);
      FindResult(if m.matched then Some(i) else None, m.table)
  }

  /** The three answers of `find_lock_unused_granule`. */
  datatype UnusedOutcome =
    | Unused(index: nat)  // the descriptor, locked, with no references
    | ErrorInput          // RMI_ERROR_INPUT: bad address or wrong role
    | ErrorInUse          // RMI_ERROR_IN_USE: right role, but still referenced

  datatype UnusedResult = UnusedResult(outcome: UnusedOutcome, table: Table)

  /**
   * `find_lock_unused_granule`: `find_lock_granule`, then a check that the
   * descriptor holds no references; if it does, the lock is given up again.
   */
  function FindLockUnusedGranule(t: Table, addr: nat, expected: GranuleState): (r: UnusedResult)
    requires WellFormed(t)
    ensures OnlyLocksChanged(t, r.table)
    ensures r.outcome.ErrorInput? <==>
              !IsGranuleAddr(addr) || t[AddrToGranule(addr)].state != expected
    ensures r.outcome.ErrorInUse? <==>
              IsGranuleAddr(addr) && t[AddrToGranule(addr)].state == expected &&
              t[AddrToGranule(addr)].refcount != 0
    ensures r.outcome.Unused? ==>
              FindGranule(addr) == Some(r.outcome.index) &&
              r.table[r.outcome.index].IsLocked() && r.table[r.outcome.index].refcount == 0
    ensures !IsGranuleAddr(addr) ==> r.table == t
    ensures IsGranuleAddr(addr) ==>
              UnchangedExcept(t, r.table, {AddrToGranule(addr)}) &&
              (!r.outcome.Unused? ==> !r.table[AddrToGranule(addr)].IsLocked())
  {
    var f := FindLockGranule(t, addr, expected);
    match f.granule
    case None => UnusedResult(ErrorInput, f.table)
    case Some(i) =>
      if f.table[i].refcount != 0 then UnusedResult(ErrorInUse, f.table[i := Release(f.table[i])])
      else UnusedResult(Unused(i), f.table)
  }

  datatype TwoResult = TwoResult(ok: bool, g1: Option<nat>, g2: Option<nat>, table: Table)

  /**
   * The locking step of `find_lock_two_granules` once the two descriptors
   * are known to be distinct and sorted: lock `lo` (the lower address)
   * first, then `hi`; if `hi` does not match, give up the lock on `lo`.
   */
  function LockOrdered(t: Table, lo: nat, expectedLo: GranuleState, hi: nat, expectedHi: GranuleState): (r: MatchResult)
    requires lo < hi < |t|
    ensures OnlyLocksChanged(t, r.table) && UnchangedExcept(t, r.table, {lo, hi})
    ensures r.matched <==> t[lo].state == expectedLo && t[hi].state == expectedHi
    ensures r.matched ==> r.table[lo].IsLocked() && r.table[hi].IsLocked()
    ensures !r.matched ==> !r.table[lo].IsLocked()
    ensures !r.matched ==> r.table[hi] == t[hi] || !r.table[hi].IsLocked()
  {
    var first := LockOnStateMatch(t, lo, expectedLo);
    if !first.matched then first
    else
      var second := LockOnStateMatch(first.table, hi, expectedHi);
      if second.matched then second
      else MatchResult(false, second.table[lo := Release(second.table[lo])])
  }

  /**
   * `find_lock_two_granules`: looks both addresses up, refuses equal
   * addresses, then takes the lock at the lower address first and the one
   * at the higher address second (`LockOrdered`). The two output slots
   * `slot1`, `slot2` receive the descriptors only on success and keep their
   * previous contents on failure.
   */
  function FindLockTwoGranules(t: Table, addr1: nat, expected1: GranuleState, slot1: Option<nat>,
                               addr2: nat, expected2: GranuleState, slot2: Option<nat>): (r: TwoResult)
    requires WellFormed(t)
    ensures OnlyLocksChanged(t, r.table)
    ensures r.ok <==>
              IsGranuleAddr(addr1) && IsGranuleAddr(addr2) && addr1 != addr2 &&
              t[AddrToGranule(addr1)].state == expected1 && t[AddrToGranule(addr2)].state == expected2
    ensures r.ok ==>
              r.g1 == FindGranule(addr1) && r.g2 == FindGranule(addr2) &&
              r.table[r.g1.value].IsLocked() && r.table[r.g2.value].IsLocked()
    ensures !r.ok ==> r.g1 == slot1 && r.g2 == slot2
    ensures !IsGranuleAddr(addr1) || !IsGranuleAddr(addr2) || addr1 == addr2 ==> r.table == t
    ensures IsGranuleAddr(addr1) && IsGranuleAddr(addr2) ==>
              UnchangedExcept(t, r.table, {AddrToGranule(addr1), AddrToGranule(addr2)})
    ensures !r.ok && IsGranuleAddr(addr1) ==>
              r.table[AddrToGranule(addr1)] == t[AddrToGranule(addr1)] || !r.table[AddrToGranule(addr1)].IsLocked()
    ensures !r.ok && IsGranuleAddr(addr2) ==>
              r.table[AddrToGranule(addr2)] == t[AddrToGranule(addr2)] || !r.table[AddrToGranule(addr2)].IsLocked()
  {
    match (FindGranule(addr1), FindGranule(addr2))
    case (Some(i1), Some(i2)) =>
      if addr1 == addr2 then TwoResult(false, slot1, slot2, t)
      else
        AddrToGranuleMonotone(addr1, addr2);
        var m := if addr1 < addr2 then LockOrdered(t, i1, expected1, i2, expected2)
                 else LockOrdered(t, i2, expected2, i1, expected1);
        if m.matched then TwoResult(true, Some(i1), Some(i2), m.table)
        else TwoResult(false, slot1, slot2, m.table)
    case _ => TwoResult(false, slot1, slot2, t)
  }

  /**
   * The locks are taken in address order whatever the argument order:
   * swapping the two requests changes nothing but the order of the outputs.
   */
  lemma FindLockTwoGranulesSymmetric(t: Table, addr1: nat, expected1: GranuleState, slot1: Option<nat>,
                                     addr2: nat, expected2: GranuleState, slot2: Option<nat>)
    requires WellFormed(t)
    ensures var r := FindLockTwoGranules(t, addr1, expected1, slot1, addr2, expected2, slot2);
            var s := FindLockTwoGranules(t, addr2, expected2, slot2, addr1, expected1, slot1);
            s == TwoResult(r.ok, r.g2, r.g1, r.table)
  {
    var r := FindLockTwoGranules(t, addr1, expected1, slot1, addr2, expected2, slot2);
    var s := FindLockTwoGranules(t, addr2, expected2, slot2, addr1, expected1, slot1);
    if IsGranuleAddr(addr1) && IsGranuleAddr(addr2) && addr1 != addr2 {
      var i1, i2 := AddrToGranule(addr1), AddrToGranule(addr2);
      AddrToGranuleMonotone(addr1, addr2);
      var m := if addr1 < addr2 then LockOrdered(t, i1, expected1, i2, expected2)
               else LockOrdered(t, i2, expected2, i1, expected1);
      assert r == if m.matched then TwoResult(true, Some(i1), Some(i2), m.table)
                  else TwoResult(false, slot1, slot2, m.table);
      assert s == if m.matched then TwoResult(true, Some(i2), Some(i1), m.table)
                  else TwoResult(false, slot2, slot1, m.table);
    }
  }
}

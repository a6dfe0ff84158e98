/**
 * Client code in the shape of the unit tests: each method drives the
 * table as one test case does, and its assertions are the test's checks,
 * proved from the contracts of `Granules.GranuleTable` alone.
 */
module GranuleScenarios {
  import opened GranuleAddress
  import opened GranuleDescriptor
  import opened Granules
  import Spec = GranuleTableSpec

  /**
   * granule_set_get_state: for every state in enumeration order, find and
   * lock the granule expecting that state (it is still held from the
   * previous round), move it to the next state and read the state back.
   */
  method SetGetStateCase(t: GranuleTable, i: nat)
    requires t.Valid() && i < NR_GRANULES && t.granules[i].state == Ns
    modifies t.granules
    ensures t.granules[i].state == Ns && t.granules[i].lock == LOCK_HELD
  {
    var addr := GranuleAddr(i);
    FindGranuleAt(i);
    var n := 0;
    while n <= STATE_LAST
      invariant n <= STATE_LAST + 1
      invariant t.granules[i].state == if n <= STATE_LAST then StateOf(n) else Ns
      invariant n > 0 ==> t.granules[i].lock == LOCK_HELD
    {
      var next := (n + 1) % (STATE_LAST + 1);
      var g := t.FindLockGranule(addr, StateOf(n));
      assert g == Some(i);
      t.SetState(i, StateOf(next));
      assert t.GetState(i) == StateOf(next);
      assert t.granules[i].lock == LOCK_HELD;
      n := n + 1;
    }
  }

  /**
   * find_lock_two_granules with two distinct non-secure granules and every
   * pair of expected states other than (NS, NS): each call fails and leaves
   * both output slots empty.
   */
  method TwoGranulesWrongStatesCase(t: GranuleTable, i1: nat, i2: nat)
    requires t.Valid() && i1 < NR_GRANULES && i2 < NR_GRANULES && i1 != i2
    requires t.granules[i1].state == Ns && t.granules[i2].state == Ns
    modifies t.granules
    ensures t.granules[i1].state == Ns && t.granules[i2].state == Ns
    ensures t.granules[i1].refcount == old(t.granules[i1].refcount)
    ensures t.granules[i2].refcount == old(t.granules[i2].refcount)
  {
    var addr1, addr2 := GranuleAddr(i1), GranuleAddr(i2);
    FindGranuleAt(i1);
    FindGranuleAt(i2);
    var g1: Option<nat>, g2: Option<nat> := None, None;
    var s1 := 0;
    while s1 <= STATE_LAST
      invariant t.granules[i1].state == Ns && t.granules[i2].state == Ns
      invariant t.granules[i1].refcount == old(t.granules[i1].refcount)
      invariant t.granules[i2].refcount == old(t.granules[i2].refcount)
      invariant g1 == None && g2 == None
    {
      var s2 := 0;
      while s2 <= STATE_LAST
        invariant t.granules[i1].state == Ns && t.granules[i2].state == Ns
        invariant t.granules[i1].refcount == old(t.granules[i1].refcount)
        invariant t.granules[i2].refcount == old(t.granules[i2].refcount)
        invariant g1 == None && g2 == None
      {
        if s1 != 0 || s2 != 0 {
          var ok;
          ok, g1, g2 := t.FindLockTwoGranules(addr1, StateOf(s1), g1, addr2, StateOf(s2), g2);
          assert !ok;
          assert g1 == None && g2 == None;
        }
        s2 := s2 + 1;
      }
      s1 := s1 + 1;
    }
  }

  /**
   * find_lock_unused_granule: a realm-descriptor granule with no references
   * is found and locked; with any other expected state the answer is an
   * input error; once it holds references the answer is in-use.
   */
  method UnusedGranuleCases(t: GranuleTable, i: nat, other: GranuleState)
    requires t.Valid() && i < NR_GRANULES && t.granules[i] == Zeroed
    requires other != Rd
    modifies t.granules
    ensures t.granules[i] == Granule(Rd, LOCK_FREE, 10)
  {
    var addr := GranuleAddr(i);
    FindGranuleAt(i);
    var g := t.FindLockGranule(addr, Ns);
    assert g == Some(i);
    t.SetState(i, Rd);
    var r := t.FindLockUnusedGranule(addr, Rd);
    assert r == Spec.Unused(i);
    assert t.granules[i].IsLocked() && t.granules[i].refcount == 0;

    r := t.FindLockUnusedGranule(addr, other);
    assert r == Spec.ErrorInput;

    t.RefcountInc(i, 10);
    r := t.FindLockUnusedGranule(addr, Rd);
    assert r == Spec.ErrorInUse;
    assert !t.granules[i].IsLocked();
  }

  /**
   * granule_put / atomic_granule_put: `count` gets followed by one put
   * leave `count - 1` references, and the role and the lock untouched.
   */
  method GetsThenPutCase(t: GranuleTable, i: nat, count: nat)
    requires t.Valid() && i < NR_GRANULES && t.granules[i] == Zeroed
    requires count >= 1
    modifies t.granules
    ensures t.granules[i] == Granule(Ns, LOCK_FREE, count - 1)
  {
    var n := 0;
    while n < count
      invariant n <= count
      invariant t.granules[i] == RefGets(Zeroed, n)
    {
      t.AtomicGet(i);
      n := n + 1;
    }
    RefGetsThenPut(Zeroed, count);
    t.AtomicPut(i);
    assert t.granules[i].refcount == count - 1;
    assert t.granules[i].state == Ns && t.granules[i].lock == LOCK_FREE;
  }
}

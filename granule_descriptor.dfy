/**
 * One granule descriptor: its role, its lock word and its reference count,
 * and the changes the granule operations make to a single descriptor.
 */
module GranuleDescriptor {

  /**
   * The closed set of granule roles, in enumeration order. `Ns` (non-secure,
   * value 0) is the default; `Rtt` is the last value.
   */
  datatype GranuleState = Ns | Delegated | Rd | Rec | RecAux | Data | Rtt

  /** Enumeration value of the last state. */
  const STATE_LAST: nat := 6

  /** The numeric value of a state, as the tests iterate over them. */
  function Ordinal(s: GranuleState): (n: nat)
    ensures n <= STATE_LAST
    ensures n == 0 <==> s == Ns
  {
    match s
    case Ns => 0
    case Delegated => 1
    case Rd => 2
    case Rec => 3
    case RecAux => 4
    case Data => 5
    case Rtt => 6
  }

  /** The state with enumeration value `n` (the tests' cast to the enum). */
  function StateOf(n: nat): (s: GranuleState)
    requires n <= STATE_LAST
    ensures Ordinal(s) == n
  {
    if n == 0 then Ns
    else if n == 1 then Delegated
    else if n == 2 then Rd
    else if n == 3 then Rec
    else if n == 4 then RecAux
    else if n == 5 then Data
    else Rtt
  }

  /** Every state is reached by the iteration from value 0 to `STATE_LAST`, exactly once. */
  lemma StateOfOrdinal(s: GranuleState)
    ensures StateOf(Ordinal(s)) == s
  {
  }

  /** Lock word of a free granule. */
  const LOCK_FREE: nat := 0
  /** Lock word of a held granule. */
  const LOCK_HELD: nat := 1

  /** A granule descriptor; a descriptor of all zero bits is `Zeroed`. */
  datatype Granule = Granule(state: GranuleState, lock: nat, refcount: nat)
  {
    predicate IsLocked()
    {
      lock != LOCK_FREE
    }
  }

  /** A descriptor as initialisation leaves it: non-secure, unlocked, no references. */
  const Zeroed: Granule := Granule(Ns, LOCK_FREE, 0)

  /** Taking the lock. Re-taking a held lock leaves it held. */
  function Acquire(g: Granule): (r: Granule)
    ensures r.IsLocked() && r.lock == LOCK_HELD
    ensures r.state == g.state && r.refcount == g.refcount
  {
    g.(lock := LOCK_HELD)
  }

  /** `granule_unlock`: releasing the lock; the role is not changed. */
  function Release(g: Granule): (r: Granule)
    ensures !r.IsLocked()
    ensures r.state == g.state && r.refcount == g.refcount
  {
    g.(lock := LOCK_FREE)
  }

  /** `granule_set_state`: the role becomes `s`, the lock and the count stay. */
  function WithState(g: Granule, s: GranuleState): (r: Granule)
    ensures r.state == s
    ensures r.lock == g.lock && r.refcount == g.refcount
  {
    g.(state := s)
  }

  /** `__granule_refcount_inc`: adds `v` references, nothing else changes. */
  function RefcountInc(g: Granule, v: nat): (r: Granule)
    ensures r.refcount == g.refcount + v
    ensures r.state == g.state && r.lock == g.lock
  {
    g.(refcount := g.refcount + v)
  }

  /**
   * `__granule_refcount_dec`: drops `v` references. Dropping more references
   * than the granule holds is a fatal assertion, hence the precondition.
   */
  function RefcountDec(g: Granule, v: nat): (r: Granule)
    requires v <= g.refcount
    ensures r.refcount + v == g.refcount
    ensures r.state == g.state && r.lock == g.lock
  {
    g.(refcount := g.refcount - v)
  }

  /** `__granule_get` and `atomic_granule_get`: one more reference. */
  function RefGet(g: Granule): (r: Granule)
    ensures r.refcount == g.refcount + 1
    ensures r.state == g.state && r.lock == g.lock
  {
    RefcountInc(g, 1)
  }

  /** `__granule_put`, `atomic_granule_put` and `atomic_granule_put_release`: one reference fewer. */
  function RefPut(g: Granule): (r: Granule)
    requires g.refcount >= 1
    ensures r.refcount == g.refcount - 1
    ensures r.state == g.state && r.lock == g.lock
  {
    RefcountDec(g, 1)
  }

  /** `RefGet` applied `n` times, as a test loop does. */
  function RefGets(g: Granule, n: nat): (r: Granule)
    ensures r.state == g.state && r.lock == g.lock
    ensures r.refcount >= g.refcount
  {
    if n == 0 then g else RefGet(RefGets(g, n - 1))
  }

  /** `n` gets add exactly `n` references and touch neither the role nor the lock. */
  lemma {:induction false} RefGetsAdd(g: Granule, n: nat)
    ensures RefGets(g, n) == RefcountInc(g, n)
  {
    if n > 0 {
      RefGetsAdd(g, n - 1);
    }
  }

  /** `n` gets followed by a single put leave `n - 1` references more than before. */
  lemma {:induction false} RefGetsThenPut(g: Granule, n: nat)
    requires n >= 1
    ensures RefGets(g, n).refcount >= 1
    ensures RefPut(RefGets(g, n)) == RefcountInc(g, n - 1)
  {
    RefGetsAdd(g, n);
  }

  /** A decrement undoes an increment of the same amount. */
  lemma RefcountIncDec(g: Granule, v: nat)
    ensures RefcountDec(RefcountInc(g, v), v) == g
  {
  }

  /** Incrementing by `v` and decrementing by `v - 1` leaves one extra reference. */
  lemma RefcountIncDecLess(g: Granule, v: nat)
    requires v >= 1
    ensures RefcountDec(RefcountInc(g, v), v - 1) == RefGet(g)
  {
  }

  /** A put undoes a get. */
  lemma RefGetPut(g: Granule)
    ensures RefPut(RefGet(g)) == g
  {
  }

  /**
   * `granule_unlock_transition(g, s)`: sets the role to `s` and then releases
   * the lock, which is the same as setting the role of the released descriptor.
   */
  function UnlockTransition(g: Granule, s: GranuleState): (r: Granule)
    ensures r == WithState(Release(g), s)
    ensures r.state == s && !r.IsLocked() && r.refcount == g.refcount
  {
    Release(WithState(g, s))
  }
}

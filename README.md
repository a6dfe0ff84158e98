# Granule table of the realm management monitor

This project models the granule table of the realm management monitor (RMM).
The table has one descriptor for each 4 KiB granule of managed physical memory.
Each descriptor holds three things:

- the granule's role (`state`);
- a lock word (`lock.val`), 0 when free;
- a reference count (`refcount`).

The model covers four parts:

- translation between physical addresses and descriptors;
- the validating lookup;
- the acquisition operations (`granule_lock`, `granule_lock_on_state_match`,
  `find_lock_granule`, `find_lock_unused_granule`, `find_lock_two_granules`);
- release, role access, the two families of reference-count operations, and
  `granule_memzero`.

The contracts are derived from the unit tests in
`lib/realm/tests/granule.cpp`. The implementation in `lib/realm/src` is not
modelled, so every contract is the behaviour those tests assert. A descriptor pointer is
modelled as its index in the table. `NULL` and the `status_ptr(...)`
sentinels are modelled as the datatypes `Option` and `UnusedOutcome`. Fatal
assertions become preconditions.

Layout, one module per file:

- `GranuleAddress` (granule_address.dfy) covers address arithmetic. It
  holds `GRANULE_SIZE` (4096) and the platform constants `GRANULE_BASE` and
  `NR_GRANULES`. The platform constants have no fixed value: the base is only
  known to be granule-aligned, and the count is only known to be at least 3.
  So every proof holds for every such platform.
- `GranuleDescriptor` (granule_descriptor.dfy) defines the state enumeration
  and one descriptor. It also defines what each operation does to a single
  descriptor, with the reference-count laws.
- `GranuleTableSpec` (granule_table_spec.dfy) states what each acquisition
  operation does to the whole table, as a function of the table before the
  call.
- `Granules` (granule_table.dfy) is the class `GranuleTable`. It holds the
  descriptor array, and its methods update the array in place. Each method
  is proved to leave the array equal to the matching specification function
  applied to the old contents.
- `GranuleMemzero` (granule_memzero.dfy) zeroes a granule through a mapped
  window.
- `GranuleScenarios` (granule_scenarios.dfy) replays four of the test
  cases as verified client code. These are `granule_set_get_state`,
  `find_lock_two_granules` TC5, `find_lock_unused_granule` TC1–TC3 and
  `atomic_granule_put` TC2. Their checks are proved from the class
  contracts alone.

Where the documented design and the tests disagree, the model follows
the tests:

- `find_lock_granule` yields `NULL`, not an input error, for a bad address
  or a wrong role (lines 651, 674, 696).
- `granule_set_state` is called on granules that are not locked (lines 736,
  787, 823, 1392, 1435), so holding the lock is not a precondition.
- `granule_memzero` is called without the lock (line 1525), so holding the
  lock is not a precondition there either.
- Acquisition does not require the lock to be free. The tests re-acquire a
  granule that is still held (lines 883–897 across loop iterations, and
  1349–1355). Acquisition sets the lock word to 1, the value line 897 checks.
- `__granule_get`, `__granule_put`, `__granule_refcount_inc` and
  `__granule_refcount_dec` are called on granules that are not locked
  (lines 1031, 1058–1059, 1085, 1113, 1142–1143, 1168–1169), so holding the
  lock is not a precondition. The lock-protected and atomic families
  therefore differ only in name in this model.

## Model

| member | source | states |
|---|---|---|
| GranuleAddress.GranuleAddr | lib/realm/tests/granule.cpp:190-202 | the address of descriptor `i` is granule-aligned and inside the managed range |
| GranuleAddress.AddrToGranule | lib/realm/tests/granule.cpp:155-163 | the index of an aligned in-range address is a valid index, and `granule_addr` of that index gives the address back |
| GranuleAddress.IndexRoundTrip | lib/realm/tests/granule.cpp:155-163 | translating the address of descriptor `i` yields descriptor `i` (first, middle and last alike) |
| GranuleAddress.FindGranule | lib/realm/tests/granule.cpp:294-347 | `find_granule` yields a descriptor exactly when the address is aligned and in range, and that descriptor's address is the given one |
| GranuleAddress.FindGranuleAt | lib/realm/tests/granule.cpp:294-307 | `find_granule` at the address of descriptor `i` yields descriptor `i` |
| GranuleAddress.FindGranuleUnaligned | lib/realm/tests/granule.cpp:320-323 | an address 1 to GRANULE_SIZE-1 bytes past a granule's start yields no descriptor |
| GranuleAddress.OutOfRangeAddress | lib/realm/tests/granule.cpp:65-94 | the helper gives an aligned address above the range or below the base, which `find_granule` rejects; it gives none below only when the base is 0 |
| GranuleDescriptor.Ordinal | lib/realm/tests/granule.cpp:567-571 | every state has a value in 0..GRANULE_STATE_LAST, and only NS has value 0 |
| GranuleDescriptor.StateOf | lib/realm/tests/granule.cpp:580-582 | casting a value in 0..GRANULE_STATE_LAST to the enum gives the state with that value |
| GranuleDescriptor.StateOfOrdinal | lib/realm/tests/granule.cpp:567-571 | iterating the values 0..GRANULE_STATE_LAST reaches every state |
| GranuleDescriptor.Acquire | lib/realm/tests/granule.cpp:736-740 | taking the lock leaves it held with lock word 1 and keeps the role and the count |
| GranuleDescriptor.Release | lib/realm/tests/granule.cpp:943-952 | `granule_unlock` frees the lock and keeps the role and the count |
| GranuleDescriptor.WithState | lib/realm/tests/granule.cpp:886-897 | `granule_set_state` sets the role and keeps the lock (still held) and the count |
| GranuleDescriptor.RefcountInc | lib/realm/tests/granule.cpp:1113-1119 | `__granule_refcount_inc(v)` adds `v` and changes neither role nor lock |
| GranuleDescriptor.RefcountDec | lib/realm/tests/granule.cpp:1142-1182 | `__granule_refcount_dec(v)` requires at least `v` references (fatal otherwise), subtracts `v`, keeps role and lock |
| GranuleDescriptor.RefGet | lib/realm/tests/granule.cpp:1031-1037 | a get adds one reference and changes neither role nor lock |
| GranuleDescriptor.RefPut | lib/realm/tests/granule.cpp:1058-1066 | a put needs a reference to drop, removes one, keeps role and lock |
| GranuleDescriptor.RefGets | lib/realm/tests/granule.cpp:1084-1086 | the test's loop of `n` gets keeps the role and the lock and never lowers the count (its exact count is `RefGetsAdd`) |
| GranuleDescriptor.RefGetsAdd | lib/realm/tests/granule.cpp:1083-1086 | `n` gets add exactly `n` references and nothing else |
| GranuleDescriptor.RefGetsThenPut | lib/realm/tests/granule.cpp:1083-1093 | `n` gets followed by one put leave the count at its old value plus `n - 1` |
| GranuleDescriptor.RefcountIncDec | lib/realm/tests/granule.cpp:1142-1150 | `refcount_dec(v)` undoes `refcount_inc(v)` |
| GranuleDescriptor.RefcountIncDecLess | lib/realm/tests/granule.cpp:1168-1175 | `refcount_inc(v)` then `refcount_dec(v - 1)` leaves one reference more, as a single get would |
| GranuleDescriptor.RefGetPut | lib/realm/tests/granule.cpp:1058-1066 | a put undoes a get |
| GranuleDescriptor.UnlockTransition | lib/realm/tests/granule.cpp:999-1005 | `granule_unlock_transition(g, s)` leaves role `s` and the lock free; it equals `set_state` followed by `unlock` |
| GranuleTableSpec.LockOnStateMatch | lib/realm/tests/granule.cpp:779-842 | the answer is yes exactly when the role matches; the descriptor ends locked exactly then (lock word 0 on mismatch); no other descriptor and no role or count changes |
| GranuleTableSpec.FindLockGranule | lib/realm/tests/granule.cpp:620-705 | yields the descriptor, locked, exactly when the address is valid and the role matches; a rejected address changes nothing; a mismatch leaves it unlocked; no role or count changes |
| GranuleTableSpec.FindLockUnusedGranule | lib/realm/tests/granule.cpp:1347-1480 | success (locked, count 0) exactly when the address is valid, the role matches and the count is 0; RMI_ERROR_INPUT exactly when the address is bad or the role differs; RMI_ERROR_IN_USE exactly when the role matches but references remain; on either error the granule is left unlocked |
| GranuleTableSpec.LockOrdered | lib/realm/tests/granule.cpp:385-396 | locking two distinct descriptors in order succeeds exactly when both roles match, leaving both locked; on failure the first is unlocked and the second untouched or unlocked |
| GranuleTableSpec.FindLockTwoGranules | lib/realm/tests/granule.cpp:350-600 | succeeds exactly for two distinct valid addresses whose roles match, then both outputs are the expected descriptors and both are locked; on every failure both output slots keep their previous contents; bad or equal addresses change nothing; no role or count ever changes |
| GranuleTableSpec.FindLockTwoGranulesSymmetric | lib/realm/tests/granule.cpp:454-470 | swapping the two requests gives the same table and outcome with the outputs swapped: locks are taken in address order, whatever the argument order |
| Granules.GranuleTable.constructor | lib/realm/tests/granule.cpp:125-134 | every descriptor starts zeroed: NS, unlocked, count 0 |
| Granules.GranuleTable.GetState | lib/realm/tests/granule.cpp:886-891 | `granule_get_state` returns the stored role |
| Granules.GranuleTable.SetState | lib/realm/tests/granule.cpp:886-897 | the role is replaced in place and read back by `GetState`, the lock word is kept |
| Granules.GranuleTable.Lock | lib/realm/tests/granule.cpp:729-741 | requires the expected role (fatal otherwise) and leaves the descriptor locked in that role |
| Granules.GranuleTable.LockOnStateMatch | lib/realm/tests/granule.cpp:779-842 | updates the array exactly as `GranuleTableSpec.LockOnStateMatch` |
| Granules.GranuleTable.Unlock | lib/realm/tests/granule.cpp:936-952 | frees the lock in place and keeps the role |
| Granules.GranuleTable.UnlockTransition | lib/realm/tests/granule.cpp:995-1006 | implemented as set-state then unlock; leaves role `s` and the lock free |
| Granules.GranuleTable.FindLockGranule | lib/realm/tests/granule.cpp:620-705 | implemented as lookup then lock-on-match; updates the array exactly as `GranuleTableSpec.FindLockGranule` |
| Granules.GranuleTable.FindLockUnusedGranule | lib/realm/tests/granule.cpp:1347-1480 | implemented as find-and-lock, acquire read of the count, unlock when referenced; matches `GranuleTableSpec.FindLockUnusedGranule` |
| Granules.GranuleTable.LockOrdered | lib/realm/tests/granule.cpp:385-396 | matches `GranuleTableSpec.LockOrdered` |
| Granules.GranuleTable.FindLockTwoGranules | lib/realm/tests/granule.cpp:350-600 | outputs and array match `GranuleTableSpec.FindLockTwoGranules`, including untouched output slots on failure |
| Granules.GranuleTable.RefcountReadRelaxed | lib/realm/tests/granule.cpp:224-235 | returns the stored count and changes nothing |
| Granules.GranuleTable.RefcountReadAcquire | lib/realm/tests/granule.cpp:256-267 | returns the stored count and changes nothing |
| Granules.GranuleTable.Get | lib/realm/tests/granule.cpp:1031-1037 | `__granule_get` applies `RefGet` to the descriptor in place |
| Granules.GranuleTable.Put | lib/realm/tests/granule.cpp:1058-1093 | `__granule_put` requires a reference and applies `RefPut` in place |
| Granules.GranuleTable.RefcountInc | lib/realm/tests/granule.cpp:1113-1119 | applies `RefcountInc` in place |
| Granules.GranuleTable.RefcountDec | lib/realm/tests/granule.cpp:1142-1182 | requires at least `v` references and applies `RefcountDec` in place |
| Granules.GranuleTable.AtomicGet | lib/realm/tests/granule.cpp:1198-1204 | same arithmetic as `__granule_get` |
| Granules.GranuleTable.AtomicPut | lib/realm/tests/granule.cpp:1225-1260 | same arithmetic as `__granule_put`, never below 0 |
| Granules.GranuleTable.AtomicPutRelease | lib/realm/tests/granule.cpp:1281-1324 | same arithmetic; dropping below 0 is a fatal assertion |
| GranuleMemzero.GranuleMemzero | lib/realm/tests/granule.cpp:1507-1535 | requires a slot other than SLOT_NS and leaves every byte of the granule zero whatever it held |
| GranuleMemzero.WordsZeroIffBytesZero | lib/realm/tests/granule.cpp:1527-1532 | a buffer reads as zero word by word exactly when every byte is zero |
| GranuleMemzero.MemzeroWordsZero | lib/realm/tests/granule.cpp:1521-1532 | after zeroing, every `int` word the test reads is 0 |
| GranuleScenarios.SetGetStateCase | lib/realm/tests/granule.cpp:875-899 | walking one granule through every state in order: each `find_lock_granule` with the current state finds it, `granule_get_state` reads back the next state and the lock word stays 1; it ends back in NS, still locked |
| GranuleScenarios.TwoGranulesWrongStatesCase | lib/realm/tests/granule.cpp:567-593 | for two distinct NS granules and every pair of expected states but (NS, NS), `find_lock_two_granules` fails and both output slots stay NULL; no role or count changes |
| GranuleScenarios.UnusedGranuleCases | lib/realm/tests/granule.cpp:1347-1440 | an RD granule with no references is found and locked; a different expected state gives RMI_ERROR_INPUT; after ten references it gives RMI_ERROR_IN_USE and the granule ends unlocked, RD, with count 10 |
| GranuleScenarios.GetsThenPutCase | lib/realm/tests/granule.cpp:1250-1260 | `count` calls of `atomic_granule_get` on a zeroed granule and one `atomic_granule_put` leave count `count - 1`, role NS and the lock free |

## Left out

- Spinning and multi-core behaviour are not modelled. This covers blocking on
  a held spinlock, the acquire/release memory ordering of
  `granule_refcount_read_acquire` and `atomic_granule_put_release`,
  atomicity of the `atomic_*` family, and the deadlock freedom that address
  ordering gives `find_lock_two_granules`. The model is sequential, so
  "acquire" sets the lock word. The address ordering itself is modelled and
  proved argument-order independent.
- Buffer-slot mapping and per-CPU state are not modelled (`buffer.h`,
  `host_util_set_cpuid`, `MAX_CPUS`, `NR_CPU_SLOTS`). These are foreign
  address-mapping calls. `GranuleMemzero` receives the mapped window as a
  byte array. `SLOT_NS` is taken to be slot 0, the first enumerator;
  `buffer.h` is not part of this model.
- The random test scaffolding is not modelled (`get_rand_in_range`, `rand`,
  `srand`, `time`, and the CppUTest macros). Randomly drawn values become
  parameters constrained to the drawn range.
- Platform bring-up is not modelled (`test_helper_rmm_start`,
  `host_util_get_granule_base`). The base and the count are constants with
  only the properties the tests rely on.
- `granule_memzero_mapped` is not modelled: its test is empty and calls it a
  `memset` wrapper.
- Null descriptor pointers are not modelled. Every descriptor argument is an
  index below `NR_GRANULES`, and the tests skip the null cases as fatal.
- `granule.h` is not part of this model. The seven state names (NS,
  DELEGATED, RD, REC, REC_AUX, DATA, RTT) and their order are taken from
  `enum granule_state` in tf-rmm, which the tests do not show. The design
  description names only the non-secure and delegated roles and gives
  examples of in-use roles, with no enumeration order. No proof depends on
  the names or the order beyond NS = 0, RD differing from NS, and
  `STATE_LAST` being the last value. `GRANULE_SIZE` = 4096 is the 4 KiB
  granule of the design.
- Addresses and reference counts are unbounded naturals, not 64-bit
  `unsigned long`.
- Granules.GranuleTable.RefcountInc: does not model 64-bit wrap-around of
  the count, because the tests never come near it.
- GranuleAddress.OutOfRangeAddress: does not model the 32-bit `unsigned
  int` truncation of the number of granules below the base, or `int`
  overflow of the drawn index times GRANULE_SIZE. The host platform's
  values stay far below both.
- Granules.GranuleTable.AtomicPut: its no-underflow precondition comes from
  the documented design of the atomic family. The tests state the fatal
  underflow only for `atomic_granule_put_release` (line 1322).
- The documented design says a delegated granule has no references. The
  tests never check this, so it is not an invariant of the model.

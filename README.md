# Collator pool of the Shakti sharding manager contract

This project models the collator pool of the Vyper sharding manager
contract `smc/Shakti_Sharding_Manager_Contract.v.py`: the free-slot stack
(`is_stack_empty`, `stack_push`, `stack_pop`), the collator registry, and
the three public transitions `register_collator`, `deregister_collator` and
`release_collator`.

- `vyper_types.dfy` (module `VyperTypes`): `int128`, `uint256` and 160-bit
  addresses as subset types, storage maps read with a default, and the
  outcome of a transaction (`Reverted`, `Returned(b)`, or `ReturnedNothing`
  for a function that falls off its end).
- `collator_pool.dfy` (module `CollatorPool`): the storage the pool touches
  as a value (`PoolState`) and one function per operation giving its
  outcome and the storage after it. A revert leaves the storage as it was,
  and that includes the early write of `collator_address`. Every `+=` and
  `-=` on an `int128` reverts when it overflows, as Vyper's checked
  arithmetic does. The storage that `__init__` writes and nothing later
  changes (`collator_deposit` = 10^21 wei, `collator_lockup_length` = 16128,
  `period_length` = 5) is modelled as constants.
- `collator_pool_properties.dfy` (module `CollatorPoolProperties`): lemmas
  about those functions. The free-slot stack is read as a sequence
  (`FreeSlots`), and the lemmas show it behaves as a LIFO stack. They also
  give each transition's guards in both directions and the full effect of a
  successful call, including what stays unchanged. Finally they show how
  `collator_pool_len` and the stack height move together.
- `sharding_manager.dfy` (module `ShardingManager`): the contract as a class
  whose fields are its storage. Each method runs the source's statements in
  order. This includes the scratch fields `collator_address` and
  `pool_index_temp`. A revert is a rollback to a snapshot taken at entry.
  Each method is proved to end in the outcome and storage that the matching
  `CollatorPool` function gives.
- `as_written.dfy` (module `AsWritten`): any sequence of calls starting from
  `__init__`. It proves an invariant of every reachable storage, and the
  consequences below.

### Behaviour of the code as written

The model keeps these behaviours of the code, and lemmas show each one:

- `register_collator` asserts `not pool_index == 0` (line 209). That is the
  opposite of the uniqueness check described in the comment at line 200.
  An address that never registered reads `pool_index` 0, so it is always
  rejected. A `pool_index` becomes non-zero only through a successful
  registration. So from `__init__`, no registration ever succeeds
  (`AsWritten.RegisterAlwaysReverts`). The pool therefore never holds an
  address, and `release_collator` always reverts too
  (`AsWritten.ReleaseAlwaysReverts`).
- `register_collator` accepts any `msg.value >= collator_deposit`, as the
  comment at line 199 says.
- `deregister_collator` checks neither the caller, despite the comment at
  lines 244-245, nor whether the slot is occupied or already free. Freeing
  a slot twice puts it on the stack twice (`DeregisterTwiceFreesTwice`).
  Freeing an empty slot marks the zero address as deregistered
  (`DeregisterEmptySlot`).
- `deregister_collator` sets `deregistered` to the constant
  `collator_lockup_length` (16128), not to the current period.
- With no occupancy check, `collator_pool_len` can go negative:
  `deregister_collator(7)` right after `__init__` succeeds and leaves it at
  -1 (`DeregisterAfterInitMakesLengthNegative`). That contradicts the
  comment at line 215, which says the pool's indices run from 0 to
  `collator_pool_len - 1`.
- `release_collator` compares `collation_header.collation_number`, which
  nothing ever writes, so it stays 0. With it, the lockup test at lines
  284-286 never passes (`AsWritten.LockupNeverPasses`).
- `release_collator` is declared `-> bool` but has no `return`. A successful
  call is modelled as `ReturnedNothing`.
- The stack entries popped by `stack_pop` stay in the map. Only the top
  moves (`StackPopRemovesTop`, `PushThenPopIsLifo`).

## Model

| member | source | states |
|---|---|---|
| `CollatorPool.Init` | smc/Shakti_Sharding_Manager_Contract.v.py:147-161 | After `__init__`: `collator_pool_len` is 0, the free-slot stack is empty, no address has a registry entry, no slot holds an address, the collation number is 0 and nothing has been paid out |
| `CollatorPool.IsStackEmpty` | smc/Shakti_Sharding_Manager_Contract.v.py:173-175 | `is_stack_empty` holds exactly when the free-slot stack holds no entry |
| `CollatorPoolProperties.StackPushAppends` | smc/Shakti_Sharding_Manager_Contract.v.py:178-184 | `stack_push(i)` fails only when the top would overflow int128. Otherwise it appends `i` to the stack, raises the top by 1 and changes nothing else |
| `CollatorPoolProperties.StackPopRemovesTop` | smc/Shakti_Sharding_Manager_Contract.v.py:187-193 | `stack_pop()` on an empty stack returns -1 and changes nothing. Otherwise it returns the last entry, removes it from the stack and changes only the top |
| `CollatorPoolProperties.PushThenPopIsLifo` | smc/Shakti_Sharding_Manager_Contract.v.py:178-193 | A pop right after `stack_push(i)` returns `i` and restores the top and the stack contents. The map keeps `i` at the old top |
| `CollatorPoolProperties.StackViewPush` | smc/Shakti_Sharding_Manager_Contract.v.py:180-184 | Writing map entry `n` and growing the view to `n+1` entries appends that entry; the entries below `n` are unchanged |
| `CollatorPoolProperties.StackViewPop` | smc/Shakti_Sharding_Manager_Contract.v.py:191-193 | Shrinking the view by one drops exactly its last entry, which is the map entry at the new top |
| `CollatorPool.StackView` | smc/Shakti_Sharding_Manager_Contract.v.py:95-99 | The stack view has `n` entries, and entry `k` is map entry `k` (0 when never written) |
| `CollatorPoolProperties.SlotToTake` | smc/Shakti_Sharding_Manager_Contract.v.py:211-214 | The slot a registration takes is the last entry of the free-slot stack when it has one, and `collator_pool_len` when it is empty |
| `CollatorPoolProperties.RegisterGuards` | smc/Shakti_Sharding_Manager_Contract.v.py:205-232 | `register_collator` reverts, changing nothing, exactly when `msg.value < collator_deposit`, or the sender's `pool_index` is 0, or `collator_pool_len` would overflow. Otherwise it returns True |
| `CollatorPoolProperties.RegisterEffect` | smc/Shakti_Sharding_Manager_Contract.v.py:211-227 | A successful registration takes the top of the free stack (popping it), or `collator_pool_len` when the stack is empty. It records the sender with `deregistered = 0` and that `pool_index`, writes the sender into that pool slot and adds 1 to the pool length. No other entry, slot, stack entry, payout or collation number changes |
| `CollatorPoolProperties.RegisterSlotAccounting` | smc/Shakti_Sharding_Manager_Contract.v.py:211-225 | A registration that reuses a slot keeps `collator_pool_len + empty_slots_stack_top`. One on an empty stack adds exactly 1 to that sum and takes slot `collator_pool_len` |
| `CollatorPoolProperties.DeregisterEffect` | smc/Shakti_Sharding_Manager_Contract.v.py:247-260 | `deregister_collator(i)` reverts only on an int128 overflow. Otherwise it returns True, pushes `i`, lowers the pool length by 1 and sets the occupant's `deregistered` to `collator_lockup_length`. It leaves the occupant's `pool_index`, the whole pool array, the other entries, payouts and collation number unchanged |
| `CollatorPoolProperties.DeregisterSlotAccounting` | smc/Shakti_Sharding_Manager_Contract.v.py:254-255 | A deregistration keeps `collator_pool_len + empty_slots_stack_top` |
| `CollatorPoolProperties.DeregisterTwiceFreesTwice` | smc/Shakti_Sharding_Manager_Contract.v.py:247-260 | Deregistering the same slot twice succeeds both times, pushes it twice and lowers the pool length by 2: there is no double-free check |
| `CollatorPoolProperties.DeregisterEmptySlot` | smc/Shakti_Sharding_Manager_Contract.v.py:248-254 | Deregistering a slot that holds no address succeeds. It marks the zero address as deregistered and pushes the slot: there is no occupancy check |
| `CollatorPoolProperties.DeregisterAfterInitMakesLengthNegative` | smc/Shakti_Sharding_Manager_Contract.v.py:247-255 | Right after `__init__`, `deregister_collator(i)` succeeds for every `i` and leaves `collator_pool_len` at -1, against the comment at line 215 |
| `CollatorPoolProperties.DeregisterThenRegisterReusesSlot` | smc/Shakti_Sharding_Manager_Contract.v.py:211-255 | A registration right after `deregister_collator(i)` takes slot `i`. It records the sender there, and the stack and pool length are back to their values before the deregistration |
| `CollatorPool.LockupEnd` | smc/Shakti_Sharding_Manager_Contract.v.py:285-286 | The lockup end `deregistered + collator_lockup_length` is defined exactly when that int128 sum neither overflows nor is negative (the uint256 conversion), and is then that sum |
| `CollatorPool.LockupPassed` | smc/Shakti_Sharding_Manager_Contract.v.py:284-286 | The lockup test `floor(collation_number / period_length) > end` holds exactly when `collation_number >= (end + 1) * period_length` |
| `CollatorPoolProperties.ReleaseGuardsAndEffect` | smc/Shakti_Sharding_Manager_Contract.v.py:272-291 | `release_collator(i)` succeeds exactly when all of these hold: the occupant of slot `i` is non-zero and is the sender; its `deregistered` is non-zero; `deregistered + collator_lockup_length` neither overflows nor is negative; and `collation_number / period_length` exceeds it. On success it pays `collator_deposit` to the sender once and sets only the sender's `pool_index` to 0. It returns no value. A failed call changes nothing |
| `CollatorPool.StackPush` | smc/Shakti_Sharding_Manager_Contract.v.py:178-184 | `stack_push` on the storage value; a successful push keeps the stack top non-negative (its full effect is `StackPushAppends`) |
| `CollatorPool.StackPop` | smc/Shakti_Sharding_Manager_Contract.v.py:187-193 | `stack_pop` on the storage value; it keeps the stack top non-negative (its full effect is `StackPopRemovesTop`) |
| `CollatorPool.Register` | smc/Shakti_Sharding_Manager_Contract.v.py:203-232 | `register_collator` on the storage value; it keeps the stack top non-negative (guards and effect are `RegisterGuards` and `RegisterEffect`) |
| `CollatorPool.Deregister` | smc/Shakti_Sharding_Manager_Contract.v.py:246-260 | `deregister_collator` on the storage value; it keeps the stack top non-negative (guards and effect are `DeregisterEffect`) |
| `CollatorPool.Release` | smc/Shakti_Sharding_Manager_Contract.v.py:270-291 | `release_collator` on the storage value; it keeps the stack top non-negative (guards and effect are `ReleaseGuardsAndEffect`) |
| `ShardingManager.ShardingManagerContract.constructor` | smc/Shakti_Sharding_Manager_Contract.v.py:147-161 | `__init__` leaves the initial storage: pool length 0 and an empty stack |
| `ShardingManager.ShardingManagerContract.IsStackEmpty` | smc/Shakti_Sharding_Manager_Contract.v.py:173-175 | The in-place `is_stack_empty` agrees with the one on the storage value |
| `ShardingManager.ShardingManagerContract.StackPush` | smc/Shakti_Sharding_Manager_Contract.v.py:178-184 | The in-place `stack_push` ends in the storage `CollatorPool.StackPush` gives. On overflow the entry is written but the top has not moved, and the caller reverts |
| `ShardingManager.ShardingManagerContract.StackPop` | smc/Shakti_Sharding_Manager_Contract.v.py:187-193 | The in-place `stack_pop` returns the index and ends in the storage that `CollatorPool.StackPop` gives |
| `ShardingManager.ShardingManagerContract.RegisterCollator` | smc/Shakti_Sharding_Manager_Contract.v.py:203-232 | The in-place `register_collator` reverts by rolling back the early `collator_address` write. It returns the outcome and ends in the storage that `CollatorPool.Register` gives |
| `ShardingManager.ShardingManagerContract.DeregisterCollator` | smc/Shakti_Sharding_Manager_Contract.v.py:246-260 | The in-place `deregister_collator` returns the outcome and ends in the storage that `CollatorPool.Deregister` gives |
| `ShardingManager.ShardingManagerContract.ReleaseCollator` | smc/Shakti_Sharding_Manager_Contract.v.py:270-291 | The in-place `release_collator` returns the outcome and ends in the storage that `CollatorPool.Release` gives |
| `ShardingManager.ShardingManagerContract.Rollback` | smc/Shakti_Sharding_Manager_Contract.v.py:207-209 | A failed `assert` restores every storage field to its value when the call began |
| `AsWritten.InitIsReachable` | smc/Shakti_Sharding_Manager_Contract.v.py:147-161 | The storage after `__init__` satisfies the reachability invariant |
| `AsWritten.ApplyKeepsReachable` | smc/Shakti_Sharding_Manager_Contract.v.py:203-291 | Each public call keeps the invariant. Under it no registry `pool_index` is non-zero, every `deregistered` is 0 or `collator_lockup_length`, no pool slot holds an address, `collation_number` is 0 and nothing was paid out |
| `AsWritten.RunKeepsReachable` | smc/Shakti_Sharding_Manager_Contract.v.py:203-291 | Every sequence of calls keeps that invariant |
| `AsWritten.RegisterAlwaysReverts` | smc/Shakti_Sharding_Manager_Contract.v.py:209 | After any sequence of calls from `__init__`, `register_collator` reverts for every sender and every value |
| `AsWritten.ReleaseAlwaysReverts` | smc/Shakti_Sharding_Manager_Contract.v.py:276-289 | After any sequence of calls from `__init__`, `release_collator` reverts for every sender and slot, and no deposit has been paid out |
| `AsWritten.LockupNeverPasses` | smc/Shakti_Sharding_Manager_Contract.v.py:284-286 | After any sequence of calls from `__init__`, `collation_number` is still 0, and the lockup test fails for every lockup end |
| `AsWritten.Apply` | smc/Shakti_Sharding_Manager_Contract.v.py:203-291 | Any public call keeps the stack top non-negative |
| `AsWritten.Run` | smc/Shakti_Sharding_Manager_Contract.v.py:203-291 | Any sequence of public calls keeps the stack top non-negative |

## Left out

- Events (`CollationHeaderAdded`, `Register_collator`, `Deregister_collator`,
  `Release_collator` and the `log` statements): they add nothing to storage.
- `send` at line 287: each payout is recorded as a `Payout` entry, but
  ether balances are not modelled. A `send` that fails, for lack of balance
  or because the recipient refuses it, is not modelled either.
- The ether that `register_collator` keeps from `msg.value` is not
  recorded. The callvalue check that Vyper adds to the non-payable
  `deregister_collator` is not modelled: its calls are taken to carry no
  value.
- Gas and out-of-gas reverts.
- `collator_subsidy` and `min_proposer_balance` are decimal values that
  nothing reads.
- Storage that `__init__` writes and no modelled function reads:
  `network_ID`, `shard_count`, `lookahead_length`, `windback_length`,
  `collation_size`, `chunk_size` and `proposer_lockup_length`.
- Declared but never-used storage: `smc_address`,
  `period_length_as_uint256`, `proposer_deposit`, `proposer_registry`,
  `collation_trees_struct`, `availability_challenges_struct`, and every
  field of `collation_header` except `collation_number`.
- `floor(collation_number / period_length)` is modelled as integer division
  of non-negative integers.
- `old_sharding_poc/sharding/validator_manager_utils.py` is not part of this
  model: it compiles and deploys a different contract and calls into the EVM.
- `old_sharding_poc/sharding/tests/test_validator_manager.py` is not part of
  this model. It drives `contracts/validator_manager.v.py`, a different
  contract that this project does not model. Its slot-reuse expectations
  match `DeregisterThenRegisterReusesSlot`.
- Sampling of collators, the collation header chain, cross-shard receipts
  and signature checks: the modelled contract does not implement them.

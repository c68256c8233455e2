/** The sharding manager contract as an object whose fields are its storage.
    Each public function runs its statements in the source's order; a failed
    `assert` or an int128 overflow restores the storage as it was when the
    call began (the EVM's revert), which also undoes the early write of
    `collator_address`. Each method is proved to end in the state and the
    outcome that `CollatorPool` gives for the same call. */
module ShardingManager {
  import opened VyperTypes
  import opened CollatorPool

  class ShardingManagerContract {
    var collatorPoolArr: map<Int128, Address>
    var collatorPoolLen: Int128
    var emptySlotsStack: map<Int128, Int128>
    var emptySlotsStackTop: Int128
    var collatorRegistry: map<Address, CollatorEntry>
    var collatorAddress: Address
    var poolIndexTemp: Int128
    var collationNumber: Uint256
    var payouts: seq<Payout>

    /** The storage as a value; also the snapshot a revert restores. */
    function State(): PoolState
      reads this
    {
      PoolState(collatorPoolArr, collatorPoolLen, emptySlotsStack, emptySlotsStackTop,
                collatorRegistry, collatorAddress, poolIndexTemp, collationNumber, payouts)
    }

    ghost predicate Valid()
      reads this
    {
      State().Valid()
    }

    /** `__init__`: the pool is empty and the free-slot stack is empty. */
    constructor ()
      ensures Valid()
      ensures State() == Init()
      ensures collatorPoolLen == 0 && emptySlotsStackTop == 0
    {
      collatorPoolArr, collatorPoolLen := map[], 0;
      emptySlotsStack, emptySlotsStackTop := map[], 0;
      collatorRegistry := map[];
      collatorAddress, poolIndexTemp := ZERO_ADDRESS, 0;
      collationNumber := 0;
      payouts := [];
    }

    /** The EVM's revert: every field back to its value in `snapshot`. */
    method Rollback(snapshot: PoolState)
      modifies this
      ensures State() == snapshot
    {
      collatorPoolArr, collatorPoolLen := snapshot.collatorPoolArr, snapshot.collatorPoolLen;
      emptySlotsStack, emptySlotsStackTop := snapshot.emptySlotsStack, snapshot.emptySlotsStackTop;
      collatorRegistry := snapshot.collatorRegistry;
      collatorAddress, poolIndexTemp := snapshot.collatorAddress, snapshot.poolIndexTemp;
      collationNumber := snapshot.collationNumber;
      payouts := snapshot.payouts;
    }

    /** `is_stack_empty`: a pure read of the stack top. */
    predicate IsStackEmpty()
      reads this
      ensures IsStackEmpty() <==> CollatorPool.IsStackEmpty(State())
    {
      emptySlotsStackTop == 0
    }

    /** `stack_push`. On an overflow of the top (`ok` false) the entry has
        been written but the top has not moved; the caller then reverts. */
    method StackPush(index: Int128) returns (ok: bool)
      requires Valid()
      modifies this
      ensures Valid()
      ensures ok <==> CollatorPool.StackPush(old(State()), index).Some?
      ensures ok ==> State() == CollatorPool.StackPush(old(State()), index).value
      ensures !ok ==> State() == old(State()).(emptySlotsStack := old(emptySlotsStack)[old(emptySlotsStackTop) := index])
    {
      emptySlotsStack := emptySlotsStack[emptySlotsStackTop := index];
      if emptySlotsStackTop == INT128_MAX {
        return false;
      }
      emptySlotsStackTop := emptySlotsStackTop + 1;
      return true;
    }

    /** `stack_pop`. */
    method StackPop() returns (index: Int128)
      requires Valid()
      modifies this
      ensures Valid()
      ensures (index, State()) == CollatorPool.StackPop(old(State()))
    {
      if IsStackEmpty() {
        return -1;
      }
      emptySlotsStackTop := emptySlotsStackTop - 1;
      index := Lookup(emptySlotsStack, emptySlotsStackTop, 0);
    }

    /** `register_collator`, sent by `sender` with `value` wei. */
    method RegisterCollator(sender: Address, value: nat) returns (outcome: Outcome)
      requires Valid()
      modifies this
      ensures Valid()
      ensures (outcome, State()) == Register(old(State()), sender, value)
    {
      var snapshot := State();
      collatorAddress := sender;
      if value < COLLATOR_DEPOSIT {
        Rollback(snapshot);
        return Reverted;
      }
      if State().Registration(collatorAddress).poolIndex == 0 {
        Rollback(snapshot);
        return Reverted;
      }
      if !IsStackEmpty() {
        poolIndexTemp := StackPop();
      } else {
        poolIndexTemp := collatorPoolLen;
      }
      ghost var popped := collatorRegistry;
      var entry := State().Registration(collatorAddress);
      collatorRegistry := collatorRegistry[collatorAddress := entry.(deregistered := 0)];
      entry := State().Registration(collatorAddress);
      collatorRegistry := collatorRegistry[collatorAddress := entry.(poolIndex := poolIndexTemp)];
      assert collatorRegistry == popped[sender := CollatorEntry(0, poolIndexTemp)];
      if collatorPoolLen == INT128_MAX {
        Rollback(snapshot);
        return Reverted;
      }
      collatorPoolLen := collatorPoolLen + 1;
      collatorPoolArr := collatorPoolArr[poolIndexTemp := collatorAddress];
      return Returned(true);
    }

    /** `deregister_collator(collator_pool_index)`. */
    method DeregisterCollator(collatorPoolIndex: Int128) returns (outcome: Outcome)
      requires Valid()
      modifies this
      ensures Valid()
      ensures (outcome, State()) == Deregister(old(State()), collatorPoolIndex)
    {
      var snapshot := State();
      collatorAddress := State().Occupant(collatorPoolIndex);
      var entry := State().Registration(collatorAddress);
      collatorRegistry := collatorRegistry[collatorAddress := entry.(deregistered := COLLATOR_LOCKUP_LENGTH)];
      var pushed := StackPush(collatorPoolIndex);
      if !pushed {
        Rollback(snapshot);
        return Reverted;
      }
      if collatorPoolLen == INT128_MIN {
        Rollback(snapshot);
        return Reverted;
      }
      collatorPoolLen := collatorPoolLen - 1;
      return Returned(true);
    }

    /** `release_collator(collator_pool_index)`, sent by `sender`. */
    method ReleaseCollator(sender: Address, collatorPoolIndex: Int128) returns (outcome: Outcome)
      requires Valid()
      modifies this
      ensures Valid()
      ensures (outcome, State()) == Release(old(State()), sender, collatorPoolIndex)
    {
      var snapshot := State();
      collatorAddress := State().Occupant(collatorPoolIndex);
      if collatorAddress == ZERO_ADDRESS || sender != collatorAddress
         || State().Registration(collatorAddress).deregistered == 0 {
        Rollback(snapshot);
        return Reverted;
      }
      var lockupEnd := LockupEnd(State().Registration(sender).deregistered);
      if lockupEnd.None? || !LockupPassed(collationNumber, lockupEnd.value) {
        Rollback(snapshot);
        return Reverted;
      }
      payouts := payouts + [Payout(collatorAddress, COLLATOR_DEPOSIT)];
      var entry := State().Registration(collatorAddress);
      collatorRegistry := collatorRegistry[collatorAddress := entry.(poolIndex := 0)];
      return ReturnedNothing;
    }
  }
}

/** The collator pool of the Shakti sharding manager contract as a value:
    the storage that `register_collator`, `deregister_collator` and
    `release_collator` touch, and one function per operation giving the
    outcome of a call and the storage after it. A call that reverts leaves
    the storage exactly as it was. */
module CollatorPool {
  import opened VyperTypes

  /** Storage written once by `__init__` and never again. */
  const COLLATOR_DEPOSIT: nat := 1_000_000_000_000_000_000_000  // 10^21 wei
  const COLLATOR_LOCKUP_LENGTH: Int128 := 16128                  // periods
  const PERIOD_LENGTH: nat := 5                                   // blocks

  /** One record of `collator_registry`; `deregistered` is 0 while registered. */
  datatype CollatorEntry = CollatorEntry(deregistered: Int128, poolIndex: Int128)

  /** What an address that never registered reads as. */
  const NO_ENTRY := CollatorEntry(0, 0)

  /** One `send` of ether out of the contract. */
  datatype Payout = Payout(recipient: Address, amount: nat)

  /** The contract storage the collator pool uses. `collatorAddress` and
      `poolIndexTemp` are scratch values the source keeps in storage;
      `collationNumber` is the only field of `collation_header` that is read. */
  datatype PoolState = PoolState(
    collatorPoolArr: map<Int128, Address>,
    collatorPoolLen: Int128,
    emptySlotsStack: map<Int128, Int128>,
    emptySlotsStackTop: Int128,
    collatorRegistry: map<Address, CollatorEntry>,
    collatorAddress: Address,
    poolIndexTemp: Int128,
    collationNumber: Uint256,
    payouts: seq<Payout>)
  {
    /** The stack top never goes below 0: it starts at 0 and is only
        decremented after `is_stack_empty` said it is not 0. */
    predicate Valid() { emptySlotsStackTop >= 0 }

    function Occupant(i: Int128): Address { Lookup(collatorPoolArr, i, ZERO_ADDRESS) }

    function Registration(a: Address): CollatorEntry { Lookup(collatorRegistry, a, NO_ENTRY) }

    /** The free-slot stack, bottom first: entries 0 .. top-1 of the map. */
    function FreeSlots(): (r: seq<Int128>)
      requires Valid()
      ensures |r| == emptySlotsStackTop
    {
      StackView(emptySlotsStack, emptySlotsStackTop)
    }
  }

  /** The first `n` entries of a stack kept in a map. */
  function StackView(stack: map<Int128, Int128>, n: nat): (r: seq<Int128>)
    requires n <= INT128_MAX
    ensures |r| == n
    ensures forall k :: 0 <= k < n ==> r[k] == Lookup(stack, k, 0)
  {
    if n == 0 then [] else StackView(stack, n - 1) + [Lookup(stack, n - 1, 0)]
  }

  /** The storage right after `__init__`: every map reads as its default. */
  function Init(): (s: PoolState)
    ensures s.Valid() && s.collatorPoolLen == 0 && s.FreeSlots() == []
    ensures forall a: Address :: s.Registration(a) == NO_ENTRY
    ensures forall i: Int128 :: s.Occupant(i) == ZERO_ADDRESS
    ensures s.collationNumber == 0 && s.payouts == []
  {
    PoolState(map[], 0, map[], 0, map[], ZERO_ADDRESS, 0, 0, [])
  }

  /** `is_stack_empty`. */
  predicate IsStackEmpty(s: PoolState)
    ensures s.Valid() ==> (IsStackEmpty(s) <==> s.FreeSlots() == [])
  {
    s.emptySlotsStackTop == 0
  }

  /** `stack_push`: stores `index` at the top and increments the top; `None`
      when the increment overflows int128, which reverts the transaction. */
  function StackPush(s: PoolState, index: Int128): (r: Option<PoolState>)
    requires s.Valid()
    ensures r.Some? ==> r.value.Valid()
  {
    if s.emptySlotsStackTop == INT128_MAX then None
    else Some(s.(emptySlotsStack := s.emptySlotsStack[s.emptySlotsStackTop := index],
                 emptySlotsStackTop := s.emptySlotsStackTop + 1))
  }

  /** `stack_pop`: -1 on an empty stack; otherwise decrements the top and
      returns the entry stored there. */
  function StackPop(s: PoolState): (r: (Int128, PoolState))
    requires s.Valid()
    ensures r.1.Valid()
  {
    if IsStackEmpty(s) then (-1, s)
    else
      var top := s.emptySlotsStackTop - 1;
      (Lookup(s.emptySlotsStack, top, 0), s.(emptySlotsStackTop := top))
  }

  /** `register_collator` called by `sender` with `value` wei attached. */
  function Register(s: PoolState, sender: Address, value: nat): (r: (Outcome, PoolState))
    requires s.Valid()
    ensures r.1.Valid()
  {
    if value < COLLATOR_DEPOSIT || s.Registration(sender).poolIndex == 0 then (Reverted, s)
    else
      var (slot, popped) := if !IsStackEmpty(s) then StackPop(s) else (s.collatorPoolLen, s);
      if popped.collatorPoolLen == INT128_MAX then (Reverted, s)
      else
        (Returned(true),
         popped.(collatorAddress := sender,
                 poolIndexTemp := slot,
                 collatorRegistry := popped.collatorRegistry[sender := CollatorEntry(0, slot)],
                 collatorPoolLen := popped.collatorPoolLen + 1,
                 collatorPoolArr := popped.collatorPoolArr[slot := sender]))
  }

  /** `deregister_collator(index)`; it has no caller and no occupancy check. */
  function Deregister(s: PoolState, index: Int128): (r: (Outcome, PoolState))
    requires s.Valid()
    ensures r.1.Valid()
  {
    var occupant := s.Occupant(index);
    var marked := s.(collatorAddress := occupant,
                     collatorRegistry := s.collatorRegistry[occupant :=
                       s.Registration(occupant).(deregistered := COLLATOR_LOCKUP_LENGTH)]);
    match StackPush(marked, index)
    case None => (Reverted, s)
    case Some(pushed) =>
      if pushed.collatorPoolLen == INT128_MIN then (Reverted, s)
      else (Returned(true), pushed.(collatorPoolLen := pushed.collatorPoolLen - 1))
  }

  /** The last period of the lockup, `deregistered + collator_lockup_length`
      converted to uint256; `None` when the int128 sum overflows or the
      conversion meets a negative number, both of which revert. */
  function LockupEnd(deregistered: Int128): (r: Option<nat>)
    ensures r.Some? <==> 0 <= deregistered + COLLATOR_LOCKUP_LENGTH <= INT128_MAX
    ensures r.Some? ==> r.value == deregistered + COLLATOR_LOCKUP_LENGTH
  {
    var sum := deregistered + COLLATOR_LOCKUP_LENGTH;
    if !InInt128(sum) || sum < 0 then None else Some(sum)
  }

  /** The lockup test: the period of `collation_header.collation_number`
      lies strictly after the lockup end. */
  predicate LockupPassed(collationNumber: Uint256, lockupEnd: nat)
    ensures LockupPassed(collationNumber, lockupEnd) <==> collationNumber >= (lockupEnd + 1) * PERIOD_LENGTH
  {
    collationNumber / PERIOD_LENGTH > lockupEnd
  }

  /** `release_collator(index)` called by `sender`. It has no `return`
      statement, so a successful call returns no value. */
  function Release(s: PoolState, sender: Address, index: Int128): (r: (Outcome, PoolState))
    requires s.Valid()
    ensures r.1.Valid()
  {
    var occupant := s.Occupant(index);
    if occupant == ZERO_ADDRESS || sender != occupant || s.Registration(occupant).deregistered == 0
    then (Reverted, s)
    else match LockupEnd(s.Registration(sender).deregistered)
      case None => (Reverted, s)
      case Some(lockupEnd) =>
        if !LockupPassed(s.collationNumber, lockupEnd) then (Reverted, s)
        else
          (ReturnedNothing,
           s.(collatorAddress := occupant,
              payouts := s.payouts + [Payout(occupant, COLLATOR_DEPOSIT)],
              collatorRegistry := s.collatorRegistry[occupant :=
                s.Registration(occupant).(poolIndex := 0)]))
  }
}

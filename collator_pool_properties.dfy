/** What the collator pool operations promise, proved about the functions of
    `CollatorPool`: the free-slot stack is a LIFO stack, the guards of each
    public function, the exact effect of a successful call, and how the pool
    length and the stack height move together. */
module CollatorPoolProperties {
  import opened VyperTypes
  import opened CollatorPool

  // ---------------------------------------------------------------------
  // Initial storage and the free-slot stack
  // ---------------------------------------------------------------------

  /** Writing the entry at position `n` and extending the view by one
      appends that entry and leaves the `n` entries below it alone. */
  lemma {:induction false} StackViewPush(stack: map<Int128, Int128>, n: nat, index: Int128)
    requires n < INT128_MAX
    ensures StackView(stack[n := index], n + 1) == StackView(stack, n) + [index]
  {
    var grown := StackView(stack[n := index], n + 1);
    var pushed := StackView(stack, n) + [index];
    assert |grown| == |pushed|;
    forall k | 0 <= k < n + 1
      ensures grown[k] == pushed[k]
    {
      if k < n {
        assert grown[k] == Lookup(stack[n := index], k, 0) == Lookup(stack, k, 0);
      }
    }
  }

  /** Shrinking the view by one drops its last entry. */
  lemma {:induction false} StackViewPop(stack: map<Int128, Int128>, n: nat)
    requires 0 < n <= INT128_MAX
    ensures StackView(stack, n - 1) == StackView(stack, n)[..n - 1]
    ensures StackView(stack, n)[n - 1] == Lookup(stack, n - 1, 0)
  {
    var whole, shrunk := StackView(stack, n), StackView(stack, n - 1);
    forall k | 0 <= k < n - 1
      ensures shrunk[k] == whole[k]
    {
    }
  }

  /** `stack_push(i)` fails only when the top would overflow; otherwise it
      puts `i` on the stack and changes nothing but the stack. */
  lemma StackPushAppends(s: PoolState, index: Int128)
    requires s.Valid()
    ensures StackPush(s, index).None? <==> s.emptySlotsStackTop == INT128_MAX
    ensures StackPush(s, index).Some? ==>
      var pushed := StackPush(s, index).value;
      && pushed.FreeSlots() == s.FreeSlots() + [index]
      && pushed.emptySlotsStackTop == s.emptySlotsStackTop + 1
      && pushed.(emptySlotsStack := s.emptySlotsStack, emptySlotsStackTop := s.emptySlotsStackTop) == s
  {
    if s.emptySlotsStackTop < INT128_MAX {
      StackViewPush(s.emptySlotsStack, s.emptySlotsStackTop, index);
    }
  }

  /** `stack_pop()` returns -1 and changes nothing on an empty stack;
      otherwise it returns the top entry, removes it, and moves nothing but
      the top (the map still holds the popped entry). */
  lemma StackPopRemovesTop(s: PoolState)
    requires s.Valid()
    ensures IsStackEmpty(s) ==> StackPop(s) == (-1, s)
    ensures !IsStackEmpty(s) ==>
      var (index, popped) := StackPop(s);
      var n := |s.FreeSlots()|;
      && index == s.FreeSlots()[n - 1]
      && popped.FreeSlots() == s.FreeSlots()[..n - 1]
      && popped == s.(emptySlotsStackTop := s.emptySlotsStackTop - 1)
  {
    if !IsStackEmpty(s) {
      StackViewPop(s.emptySlotsStack, s.emptySlotsStackTop);
    }
  }

  /** Last in, first out: a pop right after a push of `i` returns `i` and
      restores the top and the stack's contents. */
  lemma PushThenPopIsLifo(s: PoolState, index: Int128)
    requires s.Valid() && s.emptySlotsStackTop < INT128_MAX
    ensures StackPush(s, index).Some?
    ensures
      var (popped, after) := StackPop(StackPush(s, index).value);
      && popped == index
      && after.emptySlotsStackTop == s.emptySlotsStackTop
      && after.FreeSlots() == s.FreeSlots()
      && after == s.(emptySlotsStack := s.emptySlotsStack[s.emptySlotsStackTop := index])
  {
    StackPushAppends(s, index);
    StackPopRemovesTop(StackPush(s, index).value);
  }

  // ---------------------------------------------------------------------
  // register_collator
  // ---------------------------------------------------------------------

  /** The slot a successful registration takes: the top of the free-slot
      stack if there is one, else the first slot past the pool. */
  function SlotToTake(s: PoolState): (slot: Int128)
    requires s.Valid()
    ensures s.FreeSlots() == [] ==> slot == s.collatorPoolLen
    ensures s.FreeSlots() != [] ==> slot == s.FreeSlots()[|s.FreeSlots()| - 1]
  {
    if IsStackEmpty(s) then s.collatorPoolLen else Lookup(s.emptySlotsStack, s.emptySlotsStackTop - 1, 0)
  }

  /** `register_collator` reverts, changing nothing, exactly when the value
      is below the deposit, the sender's registry `pool_index` is 0 (every
      address that never registered), or the pool length would overflow;
      otherwise it returns True. */
  lemma RegisterGuards(s: PoolState, sender: Address, value: nat)
    requires s.Valid()
    ensures var (outcome, after) := Register(s, sender, value);
      && (outcome == Reverted <==>
            value < COLLATOR_DEPOSIT || s.Registration(sender).poolIndex == 0
            || s.collatorPoolLen == INT128_MAX)
      && (outcome == Reverted ==> after == s)
      && (outcome != Reverted ==> outcome == Returned(true))
  {
  }

  /** A successful `register_collator` takes `SlotToTake(s)` (popping it if
      it came from the stack), records the sender there with
      `deregistered = 0`, writes the sender into that slot of the pool and
      grows the pool by one. No other registry entry, no other slot, no
      stack entry, payout or collation number changes. */
  lemma RegisterEffect(s: PoolState, sender: Address, value: nat)
    requires s.Valid()
    requires Register(s, sender, value).0 != Reverted
    ensures var after := Register(s, sender, value).1;
      var slot := SlotToTake(s);
      var n := |s.FreeSlots()|;
      && after.Registration(sender) == CollatorEntry(0, slot)
      && after.Occupant(slot) == sender
      && after.collatorPoolLen == s.collatorPoolLen + 1
      && after.FreeSlots() == (if n == 0 then s.FreeSlots() else s.FreeSlots()[..n - 1])
      && (n > 0 ==> slot == s.FreeSlots()[n - 1])
      && (forall a :: a != sender ==> after.Registration(a) == s.Registration(a))
      && (forall i :: i != slot ==> after.Occupant(i) == s.Occupant(i))
      && after.emptySlotsStack == s.emptySlotsStack
      && after.collationNumber == s.collationNumber
      && after.payouts == s.payouts
  {
    StackPopRemovesTop(s);
  }

  /** How the pool length and the stack height move together: a
      registration that reuses a slot keeps their sum; one made on an empty
      stack grows it by exactly one and takes the slot `collator_pool_len`. */
  lemma RegisterSlotAccounting(s: PoolState, sender: Address, value: nat)
    requires s.Valid()
    requires Register(s, sender, value).0 != Reverted
    ensures var after := Register(s, sender, value).1;
      && (IsStackEmpty(s) ==>
            after.collatorPoolLen + after.emptySlotsStackTop == s.collatorPoolLen + s.emptySlotsStackTop + 1
            && after.Registration(sender).poolIndex == s.collatorPoolLen)
      && (!IsStackEmpty(s) ==>
            after.collatorPoolLen + after.emptySlotsStackTop == s.collatorPoolLen + s.emptySlotsStackTop)
  {
  }

  // ---------------------------------------------------------------------
  // deregister_collator
  // ---------------------------------------------------------------------

  /** `deregister_collator(i)` reverts only on an int128 overflow of the
      stack top or the pool length. Otherwise it returns True, pushes `i`,
      shrinks the pool by one and sets the occupant's `deregistered` to the
      constant `collator_lockup_length`; the occupant's `pool_index`, every
      slot of the pool, every other registry entry, the payouts and the
      collation number are left as they were. There is no check of the
      caller, of whether slot `i` is occupied or of whether `i` is free
      already. */
  lemma DeregisterEffect(s: PoolState, index: Int128)
    requires s.Valid()
    ensures var (outcome, after) := Deregister(s, index);
      var occupant := s.Occupant(index);
      && (outcome == Reverted <==>
            s.emptySlotsStackTop == INT128_MAX || s.collatorPoolLen == INT128_MIN)
      && (outcome == Reverted ==> after == s)
      && (outcome != Reverted ==>
            && outcome == Returned(true)
            && after.FreeSlots() == s.FreeSlots() + [index]
            && after.collatorPoolLen == s.collatorPoolLen - 1
            && after.Registration(occupant).deregistered == COLLATOR_LOCKUP_LENGTH
            && after.Registration(occupant).poolIndex == s.Registration(occupant).poolIndex
            && after.collatorPoolArr == s.collatorPoolArr
            && (forall a :: a != occupant ==> after.Registration(a) == s.Registration(a))
            && after.collationNumber == s.collationNumber
            && after.payouts == s.payouts)
  {
    var occupant := s.Occupant(index);
    var marked := s.(collatorAddress := occupant,
                     collatorRegistry := s.collatorRegistry[occupant :=
                       s.Registration(occupant).(deregistered := COLLATOR_LOCKUP_LENGTH)]);
    StackPushAppends(marked, index);
  }

  /** A deregistration keeps the sum of the pool length and the stack height. */
  lemma DeregisterSlotAccounting(s: PoolState, index: Int128)
    requires s.Valid()
    requires Deregister(s, index).0 != Reverted
    ensures var after := Deregister(s, index).1;
      after.collatorPoolLen + after.emptySlotsStackTop == s.collatorPoolLen + s.emptySlotsStackTop
  {
  }

  /** Nothing stops a double free: deregistering the same slot twice puts it
      on the stack twice and shrinks the pool by two. */
  lemma DeregisterTwiceFreesTwice(s: PoolState, index: Int128)
    requires s.Valid()
    requires s.emptySlotsStackTop < INT128_MAX - 1 && s.collatorPoolLen > INT128_MIN + 1
    ensures var once := Deregister(s, index);
      once.0 == Returned(true) &&
      var twice := Deregister(once.1, index);
      && twice.0 == Returned(true)
      && twice.1.FreeSlots() == s.FreeSlots() + [index, index]
      && twice.1.collatorPoolLen == s.collatorPoolLen - 2
  {
    DeregisterEffect(s, index);
    var once := Deregister(s, index).1;
    DeregisterEffect(once, index);
    assert s.FreeSlots() + [index] + [index] == s.FreeSlots() + [index, index];
  }

  /** A slot that holds no collator is deregistered all the same: the zero
      address gets marked as deregistered and the slot goes on the stack. */
  lemma DeregisterEmptySlot(s: PoolState, index: Int128)
    requires s.Valid() && s.Occupant(index) == ZERO_ADDRESS
    requires s.emptySlotsStackTop < INT128_MAX && s.collatorPoolLen > INT128_MIN
    ensures var (outcome, after) := Deregister(s, index);
      && outcome == Returned(true)
      && after.Registration(ZERO_ADDRESS).deregistered == COLLATOR_LOCKUP_LENGTH
      && after.FreeSlots() == s.FreeSlots() + [index]
  {
    DeregisterEffect(s, index);
  }

  /** With no occupancy check the pool length can go negative: freeing any
      slot right after `__init__` leaves `collator_pool_len` at -1, although
      the pool's indices are meant to run from 0 to `collator_pool_len - 1`. */
  lemma DeregisterAfterInitMakesLengthNegative(index: Int128)
    ensures Deregister(Init(), index).0 == Returned(true)
    ensures Deregister(Init(), index).1.collatorPoolLen == -1
  {
    DeregisterEffect(Init(), index);
  }

  /** Slot reuse: a registration right after `deregister_collator(i)` takes
      slot `i`, and the stack is back to what it was. */
  lemma DeregisterThenRegisterReusesSlot(s: PoolState, index: Int128, sender: Address, value: nat)
    requires s.Valid()
    requires Deregister(s, index).0 != Reverted
    requires Register(Deregister(s, index).1, sender, value).0 != Reverted
    ensures var after := Register(Deregister(s, index).1, sender, value).1;
      && after.Registration(sender) == CollatorEntry(0, index)
      && after.Occupant(index) == sender
      && after.FreeSlots() == s.FreeSlots()
      && after.collatorPoolLen == s.collatorPoolLen
  {
    var freed := Deregister(s, index).1;
    DeregisterEffect(s, index);
    RegisterEffect(freed, sender, value);
    assert |freed.FreeSlots()| > 0;
    assert (s.FreeSlots() + [index])[..|s.FreeSlots()|] == s.FreeSlots();
  }

  // ---------------------------------------------------------------------
  // release_collator
  // ---------------------------------------------------------------------

  /** `release_collator(i)` succeeds exactly when slot `i` holds a non-zero
      address, that address is the sender, it has been deregistered, its
      lockup end is computable and the collation number's period lies past
      it. Then it pays the deposit to the sender once, sets the sender's
      `pool_index` to 0 and keeps everything else of the pool, the stack and
      the registry; it returns no value, although the function is declared
      to return a bool. A failed call changes nothing. */
  lemma ReleaseGuardsAndEffect(s: PoolState, sender: Address, index: Int128)
    requires s.Valid()
    ensures var (outcome, after) := Release(s, sender, index);
      var entry := s.Registration(sender);
      var passes :=
        s.Occupant(index) != ZERO_ADDRESS && s.Occupant(index) == sender && entry.deregistered != 0
        && LockupEnd(entry.deregistered).Some?
        && s.collationNumber / PERIOD_LENGTH > LockupEnd(entry.deregistered).value;
      && (outcome == Reverted <==> !passes)
      && (outcome == Reverted ==> after == s)
      && (passes ==>
            && outcome == ReturnedNothing
            && after.payouts == s.payouts + [Payout(sender, COLLATOR_DEPOSIT)]
            && after.Registration(sender) == CollatorEntry(entry.deregistered, 0)
            && (forall a :: a != sender ==> after.Registration(a) == s.Registration(a))
            && after.collatorPoolArr == s.collatorPoolArr
            && after.collatorPoolLen == s.collatorPoolLen
            && after.emptySlotsStack == s.emptySlotsStack
            && after.emptySlotsStackTop == s.emptySlotsStackTop
            && after.collationNumber == s.collationNumber)
  {
  }
}

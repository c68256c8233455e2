/** Any sequence of calls to the three public functions, starting from the
    storage `__init__` leaves. Because `register_collator` asserts that the
    sender's registry `pool_index` is NOT 0, and a `pool_index` only ever
    becomes non-zero through a successful registration, no registration ever
    succeeds; and because nothing writes `collation_header.collation_number`,
    no lockup ever ends. So every registration and every release reverts,
    whatever happened before. */
module AsWritten {
  import opened VyperTypes
  import opened CollatorPool

  /** A transaction to one of the public functions. */
  datatype Call =
    | RegisterCollator(sender: Address, value: nat)
    | DeregisterCollator(index: Int128)
    | ReleaseCollator(sender: Address, index: Int128)

  function Apply(s: PoolState, call: Call): (r: (Outcome, PoolState))
    requires s.Valid()
    ensures r.1.Valid()
  {
    match call
    case RegisterCollator(sender, value) => Register(s, sender, value)
    case DeregisterCollator(index) => Deregister(s, index)
    case ReleaseCollator(sender, index) => Release(s, sender, index)
  }

  /** The storage after running `calls` one after the other from `s`. */
  function Run(s: PoolState, calls: seq<Call>): (r: PoolState)
    requires s.Valid()
    ensures r.Valid()
    decreases |calls|
  {
    if calls == [] then s else Run(Apply(s, calls[0]).1, calls[1..])
  }

  /** What holds in every storage reachable from `__init__`: no registry
      entry has a non-zero `pool_index`, every `deregistered` is 0 or
      `collator_lockup_length`, no slot of the pool holds an address, the
      collation number is still 0 and nothing was ever paid out. */
  predicate Reachable(s: PoolState)
  {
    && s.Valid()
    && (forall a :: a in s.collatorRegistry ==>
          s.collatorRegistry[a].poolIndex == 0
          && (s.collatorRegistry[a].deregistered == 0
              || s.collatorRegistry[a].deregistered == COLLATOR_LOCKUP_LENGTH))
    && (forall i :: i in s.collatorPoolArr ==> s.collatorPoolArr[i] == ZERO_ADDRESS)
    && s.collationNumber == 0
    && s.payouts == []
  }

  lemma InitIsReachable()
    ensures Reachable(Init())
  {
  }

  /** One call keeps the storage reachable. */
  lemma ApplyKeepsReachable(s: PoolState, call: Call)
    requires Reachable(s)
    ensures Reachable(Apply(s, call).1)
  {
    match call
    case RegisterCollator(sender, value) =>
      assert Register(s, sender, value).1 == s by {
        assert s.Registration(sender).poolIndex == 0;
      }
    case DeregisterCollator(index) =>
      var occupant := s.Occupant(index);
      assert s.Registration(occupant).poolIndex == 0;
    case ReleaseCollator(sender, index) =>
      assert s.Occupant(index) == ZERO_ADDRESS;
  }

  /** Every sequence of calls keeps the storage reachable. */
  lemma {:induction false} RunKeepsReachable(s: PoolState, calls: seq<Call>)
    requires Reachable(s)
    ensures Reachable(Run(s, calls))
    decreases |calls|
  {
    if calls != [] {
      ApplyKeepsReachable(s, calls[0]);
      RunKeepsReachable(Apply(s, calls[0]).1, calls[1..]);
    }
  }

  /** Whatever calls came before, `register_collator` reverts for every
      sender and every value, the full deposit included. */
  lemma RegisterAlwaysReverts(calls: seq<Call>, sender: Address, value: nat)
    ensures Register(Run(Init(), calls), sender, value).0 == Reverted
  {
    RunKeepsReachable(Init(), calls);
    var s := Run(Init(), calls);
    assert s.Registration(sender).poolIndex == 0;
  }

  /** Whatever calls came before, `release_collator` reverts for every
      sender and every slot, so no deposit is ever paid back. */
  lemma ReleaseAlwaysReverts(calls: seq<Call>, sender: Address, index: Int128)
    ensures Release(Run(Init(), calls), sender, index).0 == Reverted
    ensures Run(Init(), calls).payouts == []
  {
    RunKeepsReachable(Init(), calls);
    var s := Run(Init(), calls);
    assert s.Occupant(index) == ZERO_ADDRESS;
  }

  /** Whatever calls came before, the collation number the lockup test reads
      is still 0, so the test fails for every lockup end: the test alone
      would keep every deposit locked even if slots could be occupied. */
  lemma LockupNeverPasses(calls: seq<Call>, lockupEnd: nat)
    ensures !LockupPassed(Run(Init(), calls).collationNumber, lockupEnd)
  {
    RunKeepsReachable(Init(), calls);
  }
}

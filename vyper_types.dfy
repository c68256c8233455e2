/** Value types of the Vyper contract: checked 128-bit integers, 256-bit
    unsigned integers, 160-bit addresses, and the way a transaction ends. */
module VyperTypes {

  const INT128_MIN: int := -0x8000_0000_0000_0000_0000_0000_0000_0000
  const INT128_MAX: int := 0x7fff_ffff_ffff_ffff_ffff_ffff_ffff_ffff
  const UINT256_MAX: int := 0xffff_ffff_ffff_ffff_ffff_ffff_ffff_ffff_ffff_ffff_ffff_ffff_ffff_ffff_ffff_ffff
  const ADDRESS_BOUND: int := 0x1_0000_0000_0000_0000_0000_0000_0000_0000_0000_0000

  predicate InInt128(x: int) { INT128_MIN <= x <= INT128_MAX }

  /** `int128`: Vyper checks every `+` and `-` on it and reverts on overflow. */
  type Int128 = x: int | InInt128(x)

  type Uint256 = x: int | 0 <= x <= UINT256_MAX

  /** A 20-byte account address; 0 is the zero address. */
  type Address = a: int | 0 <= a < ADDRESS_BOUND

  const ZERO_ADDRESS: Address := 0

  /** A storage map `V[K]` is total: a key never written reads as the default. */
  function Lookup<K, V>(m: map<K, V>, k: K, default: V): V
  {
    if k in m then m[k] else default
  }

  datatype Option<T> = None | Some(value: T)

  /** How a call to a public function ends: a failed `assert` or an
      arithmetic overflow reverts every write of the transaction; otherwise
      the function returns a value, or falls off its end without a `return`. */
  datatype Outcome = Reverted | Returned(value: bool) | ReturnedNothing
}

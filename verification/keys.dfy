/**
 * Account addresses, fixed-width integers and the program-derived-address
 * scheme used to give the escrow vault an authority nobody holds a key for.
 */
module Keys {

  const U64_MAX: int := 0xFFFF_FFFF_FFFF_FFFF

  /** Rust `u8`. */
  type U8 = b: int | 0 <= b < 0x100

  /** Rust `u64`. */
  type U64 = n: int | 0 <= n <= 0xFFFF_FFFF_FFFF_FFFF

  /**
   * An account address. `Key` is a point on the curve: some wallet holds
   * its private key. `Derived` is an off-curve address computed from seeds;
   * the hash is not modelled, so the seeds themselves stand for the address,
   * which makes the derivation injective by construction.
   */
  datatype Pubkey =
    | Key(id: nat)
    | Derived(seed: string, base: Pubkey, bump: U8)

  /** The fixed domain tag of the escrow record's address. */
  const ESCROW_SEED: string := "escrow"

  /**
   * `create_program_address([seed, base, [bump]])`: the address the program
   * may sign for when it presents these seeds.
   */
  function CreateAddress(seed: string, base: Pubkey, bump: U8): (a: Pubkey)
    ensures !a.Key?
  {
    Derived(seed, base, bump)
  }

  /**
   * Stand-in for the runtime's bump search, which starts at 255 and counts
   * down until the candidate lies off the curve. The curve test is not
   * modelled, so the first candidate is taken; no property proved in this
   * project depends on the value.
   */
  function CanonicalBump(seed: string, base: Pubkey): U8
  {
    255
  }

  /**
   * `find_program_address([seed, base])`: the canonical address and the
   * bump that re-derives it.
   */
  function FindAddress(seed: string, base: Pubkey): (r: (Pubkey, U8))
    ensures r.0 == CreateAddress(seed, base, r.1)
  {
    var bump := CanonicalBump(seed, base);
    (CreateAddress(seed, base, bump), bump)
  }

  /** Different seeds never share an address. */
  lemma CreateAddressInjective(s1: string, b1: Pubkey, n1: U8, s2: string, b2: Pubkey, n2: U8)
    requires CreateAddress(s1, b1, n1) == CreateAddress(s2, b2, n2)
    ensures s1 == s2 && b1 == b2 && n1 == n2
  {
  }

  /** A derived address is never the base it was derived from. */
  lemma CreateAddressIsNotBase(seed: string, base: Pubkey, bump: U8)
    ensures CreateAddress(seed, base, bump) != base
  {
    assert base < Derived(seed, base, bump);
  }
}

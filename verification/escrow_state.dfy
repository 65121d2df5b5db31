/**
 * The persisted `Escrow` record, the ledger the instructions act on, and
 * the linkage invariant every reachable ledger keeps.
 */
module EscrowState {
  import opened Keys
  import opened Token

  /**
   * One open escrow: the seller, the bump that re-derives the record's
   * address, the vault holding the seller's X tokens, and the price asked
   * in Y tokens.
   */
  datatype Escrow = Escrow(
    authority: Pubkey,
    bump: U8,
    escrowedXTokens: Pubkey,
    yMint: Pubkey,
    yAmount: U64)

  /**
   * Bytes the record's account is created with: an 8-byte account
   * discriminator, then the fields in declaration order (authority 32,
   * bump 1, vault 32, Y mint 32, Y amount 8), summed as the source sums
   * them. The byte layout itself is not modelled.
   */
  const ESCROW_LEN: nat := 8 + 1 + 32 + 32 + 32 + 8

  /** The accounts the escrow program can see: mints, token accounts, escrows. */
  datatype Ledger = Ledger(
    mints: set<Pubkey>,
    tokens: Tokens,
    escrows: map<Pubkey, Escrow>)

  /** An `init` target must not already hold any kind of account. */
  predicate InUse(l: Ledger, k: Pubkey)
  {
    k in l.mints || k in l.tokens || k in l.escrows
  }

  /**
   * The record at `a` sits at the canonical address of its seller, and its
   * vault exists and is owned by that address.
   */
  predicate EscrowLinked(l: Ledger, a: Pubkey)
    requires a in l.escrows
  {
    var e := l.escrows[a];
    && (a, e.bump) == FindAddress(ESCROW_SEED, e.authority)
    && e.escrowedXTokens in l.tokens
    && l.tokens[e.escrowedXTokens].owner == a
  }

  /** The invariant of every ledger the three instructions can reach. */
  predicate Valid(l: Ledger)
  {
    forall a :: a in l.escrows ==> EscrowLinked(l, a)
  }

  /** The address of `seller`'s escrow record. */
  function EscrowAddress(seller: Pubkey): Pubkey
  {
    FindAddress(ESCROW_SEED, seller).0
  }

  /** In a valid ledger each seller has at most one open escrow. */
  lemma OneEscrowPerSeller(l: Ledger, a: Pubkey, b: Pubkey)
    requires Valid(l)
    requires a in l.escrows && b in l.escrows
    requires l.escrows[a].authority == l.escrows[b].authority
    ensures a == b
  {
    assert EscrowLinked(l, a) && EscrowLinked(l, b);
  }

  /** In a valid ledger two escrows never share a vault. */
  lemma VaultsAreDistinct(l: Ledger, a: Pubkey, b: Pubkey)
    requires Valid(l)
    requires a in l.escrows && b in l.escrows && a != b
    ensures l.escrows[a].escrowedXTokens != l.escrows[b].escrowedXTokens
  {
    assert EscrowLinked(l, a) && EscrowLinked(l, b);
  }
}

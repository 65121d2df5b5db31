/**
 * The two SPL-token instructions the escrow program invokes, `transfer` and
 * `close_account`, as failable primitives over a map of token accounts,
 * and the per-mint supply they conserve.
 */
module Token {
  import opened Wrappers
  import opened Keys

  /** An SPL token account: which mint it holds, who may move it, how much. */
  datatype TokenAccount = TokenAccount(mint: Pubkey, owner: Pubkey, amount: U64)

  type Tokens = map<Pubkey, TokenAccount>

  /** The token program's errors that the two primitives can raise. */
  datatype TokenError =
    | UninitializedAccount
    | InsufficientFunds
    | MintMismatch
    | OwnerMismatch
    | Overflow
    | NonNativeHasBalance

  /** Every account keeps its key, mint and owner; only amounts may differ. */
  predicate SameShape(before: Tokens, after: Tokens)
  {
    && after.Keys == before.Keys
    && forall k :: k in before ==> after[k].mint == before[k].mint && after[k].owner == before[k].owner
  }

  /** The conditions under which the token program accepts a transfer. */
  predicate CanTransfer(tokens: Tokens, from: Pubkey, to: Pubkey, authority: Pubkey, amount: U64)
  {
    && from in tokens && to in tokens
    && amount <= tokens[from].amount
    && tokens[from].mint == tokens[to].mint
    && tokens[from].owner == authority
    && (from == to || tokens[to].amount + amount <= U64_MAX)
  }

  /**
   * `transfer(from, to, authority, amount)`, checked in the token program's
   * order. A transfer to the source itself passes the checks and changes
   * nothing.
   */
  function Transfer(tokens: Tokens, from: Pubkey, to: Pubkey, authority: Pubkey, amount: U64): (r: Result<Tokens, TokenError>)
    ensures r.Ok? <==> CanTransfer(tokens, from, to, authority, amount)
    ensures r.Ok? ==> SameShape(tokens, r.value)
    ensures r.Ok? ==> forall k :: k in tokens && k != from && k != to ==> r.value[k] == tokens[k]
    ensures r.Ok? && from != to ==> r.value[from].amount == tokens[from].amount - amount
    ensures r.Ok? && from != to ==> r.value[to].amount == tokens[to].amount + amount
    ensures r.Ok? && from == to ==> r.value == tokens
    ensures r.Ok? ==> forall k :: k in tokens && r.value[k].amount < tokens[k].amount ==> k == from
    ensures r.Ok? ==> forall k :: k in tokens && r.value[k].amount > tokens[k].amount ==> k == to
  {
    if from !in tokens || to !in tokens then Err(UninitializedAccount)
    else if tokens[from].amount < amount then Err(InsufficientFunds)
    else if tokens[from].mint != tokens[to].mint then Err(MintMismatch)
    else if tokens[from].owner != authority then Err(OwnerMismatch)
    else if from == to then Ok(tokens)
    else if tokens[to].amount + amount > U64_MAX then Err(Overflow)
    else
      var source := tokens[from];
      var dest := tokens[to];
      Ok(tokens[from := source.(amount := source.amount - amount)][to := dest.(amount := dest.amount + amount)])
  }

  /** The conditions under which the token program closes an account. */
  predicate CanClose(tokens: Tokens, account: Pubkey, authority: Pubkey)
  {
    && account in tokens
    && tokens[account].amount == 0
    && tokens[account].owner == authority
  }

  /** `close_account(account, authority)`: removes an empty account. */
  function Close(tokens: Tokens, account: Pubkey, authority: Pubkey): (r: Result<Tokens, TokenError>)
    ensures r.Ok? <==> CanClose(tokens, account, authority)
    ensures r.Ok? ==> r.value.Keys == tokens.Keys - {account}
    ensures r.Ok? ==> forall k :: k in r.value ==> r.value[k] == tokens[k]
  {
    if account !in tokens then Err(UninitializedAccount)
    else if tokens[account].amount != 0 then Err(NonNativeHasBalance)
    else if tokens[account].owner != authority then Err(OwnerMismatch)
    else Ok(tokens - {account})
  }

  // ---------------------------------------------------------------------
  // Supply: how many tokens of one mint all accounts hold together.
  // ---------------------------------------------------------------------

  /** What one account contributes to the supply of `mint`. */
  function Holding(acct: TokenAccount, mint: Pubkey): nat
  {
    if acct.mint == mint then acct.amount else 0
  }

  ghost function Pick(tokens: Tokens): (k: Pubkey)
    requires tokens != map[]
    ensures k in tokens
  {
    var k :| k in tokens; k
  }

  /** The sum of the balances of every account of `mint`. */
  ghost function Supply(tokens: Tokens, mint: Pubkey): nat
    decreases tokens.Keys
  {
    if tokens == map[] then 0
    else
      var k := Pick(tokens);
      Holding(tokens[k], mint) + Supply(tokens - {k}, mint)
  }

  /** Any account, not only the one `Supply` picks, can be split off. */
  lemma {:induction false} SupplySplit(tokens: Tokens, k: Pubkey, mint: Pubkey)
    requires k in tokens
    ensures Supply(tokens, mint) == Holding(tokens[k], mint) + Supply(tokens - {k}, mint)
    decreases tokens.Keys
  {
    var j := Pick(tokens);
    if j != k {
      SupplySplit(tokens - {j}, k, mint);
      SupplySplit(tokens - {k}, j, mint);
      assert tokens - {j} - {k} == tokens - {k} - {j};
    }
  }

  /** Replacing one account changes the supply by the difference of holdings. */
  lemma SupplyUpdate(tokens: Tokens, k: Pubkey, v: TokenAccount, mint: Pubkey)
    requires k in tokens
    ensures Supply(tokens[k := v], mint) + Holding(tokens[k], mint) == Supply(tokens, mint) + Holding(v, mint)
  {
    SupplySplit(tokens[k := v], k, mint);
    SupplySplit(tokens, k, mint);
    assert tokens[k := v] - {k} == tokens - {k};
  }

  /** Adding a fresh account adds its holding to the supply. */
  lemma SupplyInsert(tokens: Tokens, k: Pubkey, v: TokenAccount, mint: Pubkey)
    requires k !in tokens
    ensures Supply(tokens[k := v], mint) == Supply(tokens, mint) + Holding(v, mint)
  {
    SupplySplit(tokens[k := v], k, mint);
    assert tokens[k := v] - {k} == tokens;
  }

  /** A successful transfer conserves the supply of every mint. */
  lemma TransferConserves(tokens: Tokens, from: Pubkey, to: Pubkey, authority: Pubkey, amount: U64, mint: Pubkey)
    requires Transfer(tokens, from, to, authority, amount).Ok?
    ensures Supply(Transfer(tokens, from, to, authority, amount).value, mint) == Supply(tokens, mint)
  {
    if from != to {
      var source := tokens[from];
      var dest := tokens[to];
      var t1 := tokens[from := source.(amount := source.amount - amount)];
      SupplyUpdate(tokens, from, source.(amount := source.amount - amount), mint);
      SupplyUpdate(t1, to, dest.(amount := dest.amount + amount), mint);
    }
  }

  /** Closing an (empty) account conserves the supply of every mint. */
  lemma CloseConserves(tokens: Tokens, account: Pubkey, authority: Pubkey, mint: Pubkey)
    requires Close(tokens, account, authority).Ok?
    ensures Supply(Close(tokens, account, authority).value, mint) == Supply(tokens, mint)
  {
    SupplySplit(tokens, account, mint);
  }

  /**
   * Nobody holding a private key can move tokens out of an account whose
   * owner is a derived address: the token program refuses the transfer.
   */
  lemma NoKeyMovesDerivedAccount(tokens: Tokens, from: Pubkey, to: Pubkey, signer: Pubkey, amount: U64)
    requires from in tokens && tokens[from].owner.Derived?
    requires signer.Key?
    ensures Transfer(tokens, from, to, signer, amount).Err?
  {
  }
}

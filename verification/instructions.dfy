/**
 * The three escrow instructions. Each validates its accounts as the
 * program's account-constraint annotations do, then invokes the token
 * program. An instruction yields the whole new ledger or an error; the
 * runtime then discards every effect of a failed instruction.
 */
module Instructions {
  import opened Wrappers
  import opened Keys
  import opened Token
  import opened EscrowState

  /** Why an instruction was rejected. */
  datatype Error =
    | AccountNotInitialized          // a referenced account does not exist (or has another type)
    | AccountAlreadyInUse            // an `init` target already exists
    | ConstraintSeeds                // an address does not re-derive from its seeds
    | ConstraintRaw                  // a `constraint = ...` annotation is false
    | TokenFailed(cause: TokenError) // the token program rejected a transfer or close
  {
    /** Raised by account validation, before any token instruction runs. */
    predicate IsValidation()
    {
      !TokenFailed?
    }
  }

  function Lift<T>(r: Result<T, TokenError>): (r': Result<T, Error>)
    ensures r'.Ok? <==> r.Ok?
    ensures r.Ok? ==> r'.value == r.value
    ensures r.Err? ==> r'.error == TokenFailed(r.error)
  {
    r.MapFailure(e => TokenFailed(e))
  }

  /** The address the program signs as when it presents a record's seeds. */
  function EscrowSigner(e: Escrow): Pubkey
  {
    CreateAddress(ESCROW_SEED, e.authority, e.bump)
  }

  // -----------------------------------------------------------------------
  // Initialize
  // -----------------------------------------------------------------------

  /** The accounts an `initialize` transaction names. */
  datatype InitializeAccounts = InitializeAccounts(
    seller: Pubkey,
    xMint: Pubkey,
    yMint: Pubkey,
    sellerXToken: Pubkey,
    escrow: Pubkey,
    escrowedXTokens: Pubkey)

  /** Every account constraint of `initialize`, as one condition. */
  predicate InitializeConstraints(l: Ledger, a: InitializeAccounts)
  {
    && a.xMint in l.mints
    && a.yMint in l.mints
    && a.sellerXToken in l.tokens
    && l.tokens[a.sellerXToken].mint == a.xMint
    && l.tokens[a.sellerXToken].owner == a.seller
    && a.escrow == EscrowAddress(a.seller)
    && !InUse(l, a.escrow)
    && !InUse(l, a.escrowedXTokens)
    && a.escrowedXTokens != a.escrow
  }

  /**
   * Opens an escrow: creates the record at the seller's derived address,
   * creates the vault owned by that address, and moves `xAmount` X tokens
   * from the seller into the vault.
   */
  function Initialize(l: Ledger, a: InitializeAccounts, xAmount: U64, yAmount: U64): (r: Result<Ledger, Error>)
    ensures !InitializeConstraints(l, a) ==> r.Err? && r.error.IsValidation()
    ensures r.Ok? <==> InitializeConstraints(l, a) && xAmount <= l.tokens[a.sellerXToken].amount
    ensures r.Ok? ==> r.value.mints == l.mints
    ensures r.Ok? ==> a.escrow !in l.escrows && r.value.escrows.Keys == l.escrows.Keys + {a.escrow}
    ensures r.Ok? ==> r.value.escrows[a.escrow]
                      == Escrow(a.seller, FindAddress(ESCROW_SEED, a.seller).1, a.escrowedXTokens, a.yMint, yAmount)
    ensures r.Ok? ==> forall b :: b in l.escrows ==> r.value.escrows[b] == l.escrows[b]
    ensures r.Ok? ==> a.escrowedXTokens !in l.tokens && r.value.tokens.Keys == l.tokens.Keys + {a.escrowedXTokens}
    ensures r.Ok? ==> r.value.tokens[a.escrowedXTokens] == TokenAccount(a.xMint, a.escrow, xAmount)
    ensures r.Ok? ==> r.value.tokens[a.sellerXToken].amount == l.tokens[a.sellerXToken].amount - xAmount
    ensures r.Ok? ==> forall k :: k in l.tokens && k != a.sellerXToken ==> r.value.tokens[k] == l.tokens[k]
    ensures r.Ok? ==> forall k :: k in l.tokens ==> r.value.tokens[k].mint == l.tokens[k].mint && r.value.tokens[k].owner == l.tokens[k].owner
  {
    if a.xMint !in l.mints || a.yMint !in l.mints || a.sellerXToken !in l.tokens then
      Err(AccountNotInitialized)
    else if a.escrow != EscrowAddress(a.seller) then
      Err(ConstraintSeeds)
    else if InUse(l, a.escrow) then
      Err(AccountAlreadyInUse)
    else
      var record := Escrow(a.seller, FindAddress(ESCROW_SEED, a.seller).1, a.escrowedXTokens, a.yMint, yAmount);
      var withRecord := l.(escrows := l.escrows[a.escrow := record]);
      if InUse(withRecord, a.escrowedXTokens) then
        Err(AccountAlreadyInUse)
      else if l.tokens[a.sellerXToken].mint != a.xMint || l.tokens[a.sellerXToken].owner != a.seller then
        Err(ConstraintRaw)
      else
        var vault := TokenAccount(a.xMint, a.escrow, 0);
        var tokens :- Lift(Transfer(withRecord.tokens[a.escrowedXTokens := vault],
                                    a.sellerXToken, a.escrowedXTokens, a.seller, xAmount));
        Ok(withRecord.(tokens := tokens))
  }

  // -----------------------------------------------------------------------
  // Accept
  // -----------------------------------------------------------------------

  /** The accounts an `accept` transaction names. */
  datatype AcceptAccounts = AcceptAccounts(
    buyer: Pubkey,
    escrow: Pubkey,
    escrowedXTokens: Pubkey,
    sellersYTokens: Pubkey,
    buyerXTokens: Pubkey,
    buyerYTokens: Pubkey)

  /** Every account constraint of `accept`, as one condition. */
  predicate AcceptConstraints(l: Ledger, a: AcceptAccounts)
  {
    && a.escrow in l.escrows
    && a.escrow == EscrowSigner(l.escrows[a.escrow])
    && a.escrowedXTokens in l.tokens
    && a.escrowedXTokens == l.escrows[a.escrow].escrowedXTokens
    && a.sellersYTokens in l.tokens
    && l.tokens[a.sellersYTokens].mint == l.escrows[a.escrow].yMint
    && a.buyerXTokens in l.tokens
    && l.tokens[a.buyerXTokens].mint == l.tokens[a.escrowedXTokens].mint
    && a.buyerYTokens in l.tokens
    && l.tokens[a.buyerYTokens].mint == l.escrows[a.escrow].yMint
    && l.tokens[a.buyerYTokens].owner == a.buyer
  }

  /** The first leg of `accept`: the whole vault to the buyer, signed by the escrow address. */
  function XLeg(l: Ledger, a: AcceptAccounts): Result<Tokens, TokenError>
    requires a.escrow in l.escrows && a.escrowedXTokens in l.tokens
  {
    Transfer(l.tokens, a.escrowedXTokens, a.buyerXTokens, EscrowSigner(l.escrows[a.escrow]),
             l.tokens[a.escrowedXTokens].amount)
  }

  /**
   * Settles an escrow: the vault's whole balance goes to the buyer and the
   * buyer pays the asked Y amount. The record stays in place.
   */
  function Accept(l: Ledger, a: AcceptAccounts): (r: Result<Ledger, Error>)
    ensures !AcceptConstraints(l, a) ==> r.Err? && r.error.IsValidation()
    ensures AcceptConstraints(l, a) && r.Err? ==> r.error.TokenFailed?
    ensures r.Ok? ==> r.value.mints == l.mints && r.value.escrows == l.escrows
    ensures r.Ok? ==> SameShape(l.tokens, r.value.tokens)
    ensures r.Ok? ==> forall k :: k in l.tokens && k != a.escrowedXTokens && k != a.buyerXTokens
                                 && k != a.buyerYTokens && k != a.sellersYTokens
                                 ==> r.value.tokens[k] == l.tokens[k]
    ensures r.Ok? ==> forall k :: k in l.tokens && r.value.tokens[k].amount < l.tokens[k].amount
                                 ==> k == a.escrowedXTokens || k == a.buyerYTokens
    ensures r.Ok? ==> l.tokens[a.escrowedXTokens].owner == a.escrow
  {
    if a.escrow !in l.escrows || a.escrowedXTokens !in l.tokens || a.sellersYTokens !in l.tokens
       || a.buyerXTokens !in l.tokens || a.buyerYTokens !in l.tokens then
      Err(AccountNotInitialized)
    else
      var e := l.escrows[a.escrow];
      if a.escrow != EscrowSigner(e) then
        Err(ConstraintSeeds)
      else if a.escrowedXTokens != e.escrowedXTokens
           || l.tokens[a.sellersYTokens].mint != e.yMint
           || l.tokens[a.buyerXTokens].mint != l.tokens[a.escrowedXTokens].mint
           || l.tokens[a.buyerYTokens].mint != e.yMint
           || l.tokens[a.buyerYTokens].owner != a.buyer then
        Err(ConstraintRaw)
      else
        var afterX :- Lift(XLeg(l, a));
        var afterY :- Lift(Transfer(afterX, a.buyerYTokens, a.sellersYTokens, a.buyer, e.yAmount));
        Ok(l.(tokens := afterY))
  }

  /** The account credited with the buyer's payment belongs to the seller. */
  predicate PaysSeller(l: Ledger, a: AcceptAccounts)
  {
    && a.escrow in l.escrows
    && a.sellersYTokens in l.tokens
    && l.tokens[a.sellersYTokens].owner == l.escrows[a.escrow].authority
  }

  /**
   * `accept` with the one constraint it lacks: the account receiving the
   * payment must be owned by the escrow's seller.
   */
  function AcceptToSeller(l: Ledger, a: AcceptAccounts): (r: Result<Ledger, Error>)
    ensures r.Ok? <==> PaysSeller(l, a) && Accept(l, a).Ok?
    ensures r.Ok? ==> r == Accept(l, a)
    ensures r.Err? && !AcceptConstraints(l, a) ==> r.error.IsValidation()
    ensures r.Ok? && a.buyer != l.escrows[a.escrow].authority
            ==> r.value.tokens[a.sellersYTokens].amount
                >= l.tokens[a.sellersYTokens].amount + l.escrows[a.escrow].yAmount
  {
    if AcceptConstraints(l, a) && !PaysSeller(l, a) then
      Err(ConstraintRaw)
    else
      var r := Accept(l, a);
      assert r.Ok? ==> a.sellersYTokens != a.escrowedXTokens by {
        if r.Ok? {
          var e := l.escrows[a.escrow];
          CreateAddressIsNotBase(ESCROW_SEED, e.authority, e.bump);
        }
      }
      r
  }

  // -----------------------------------------------------------------------
  // Cancel
  // -----------------------------------------------------------------------

  /** The accounts a `cancel` transaction names. */
  datatype CancelAccounts = CancelAccounts(
    seller: Pubkey,
    escrow: Pubkey,
    escrowedXTokens: Pubkey,
    sellerXToken: Pubkey)

  /** Every account constraint of `cancel`, as one condition. */
  predicate CancelConstraints(l: Ledger, c: CancelAccounts)
  {
    && c.escrow in l.escrows
    && l.escrows[c.escrow].authority == c.seller
    && c.escrow == EscrowSigner(l.escrows[c.escrow])
    && c.escrowedXTokens in l.tokens
    && c.escrowedXTokens == l.escrows[c.escrow].escrowedXTokens
    && c.sellerXToken in l.tokens
    && l.tokens[c.sellerXToken].mint == l.tokens[c.escrowedXTokens].mint
    && l.tokens[c.sellerXToken].owner == c.seller
  }

  /**
   * Withdraws an escrow: the vault's whole balance goes back to the seller,
   * the vault is closed and the record is removed.
   */
  function Cancel(l: Ledger, c: CancelAccounts): (r: Result<Ledger, Error>)
    ensures !CancelConstraints(l, c) ==> r.Err? && r.error.IsValidation()
    ensures CancelConstraints(l, c) && r.Err? ==> r.error.TokenFailed?
    ensures r.Ok? ==> c.escrow in l.escrows
                      && CreateAddress(ESCROW_SEED, c.seller, l.escrows[c.escrow].bump) == c.escrow
    ensures r.Ok? ==> r.value.mints == l.mints
    ensures r.Ok? ==> r.value.escrows.Keys == l.escrows.Keys - {c.escrow}
    ensures r.Ok? ==> forall b :: b in r.value.escrows ==> r.value.escrows[b] == l.escrows[b]
    ensures r.Ok? ==> r.value.tokens.Keys == l.tokens.Keys - {c.escrowedXTokens}
    ensures r.Ok? ==> forall k :: k in r.value.tokens && k != c.sellerXToken ==> r.value.tokens[k] == l.tokens[k]
    ensures r.Ok? ==> c.sellerXToken != c.escrowedXTokens
                      && r.value.tokens[c.sellerXToken].mint == l.tokens[c.sellerXToken].mint
                      && r.value.tokens[c.sellerXToken].owner == l.tokens[c.sellerXToken].owner
                      && r.value.tokens[c.sellerXToken].amount
                         == l.tokens[c.sellerXToken].amount + l.tokens[c.escrowedXTokens].amount
    ensures r.Ok? ==> l.tokens[c.escrowedXTokens].owner == c.escrow
  {
    if c.escrow !in l.escrows || c.escrowedXTokens !in l.tokens || c.sellerXToken !in l.tokens then
      Err(AccountNotInitialized)
    else
      var e := l.escrows[c.escrow];
      if e.authority != c.seller then
        Err(ConstraintRaw)
      else if c.escrow != EscrowSigner(e) then
        Err(ConstraintSeeds)
      else if c.escrowedXTokens != e.escrowedXTokens
           || l.tokens[c.sellerXToken].mint != l.tokens[c.escrowedXTokens].mint
           || l.tokens[c.sellerXToken].owner != c.seller then
        Err(ConstraintRaw)
      else
        var signer := CreateAddress(ESCROW_SEED, c.seller, e.bump);
        CreateAddressIsNotBase(ESCROW_SEED, c.seller, e.bump);
        var afterRefund :- Lift(Transfer(l.tokens, c.escrowedXTokens, c.sellerXToken, signer,
                                         l.tokens[c.escrowedXTokens].amount));
        var afterClose :- Lift(Close(afterRefund, c.escrowedXTokens, signer));
        Ok(Ledger(l.mints, afterClose, l.escrows - {c.escrow}))
  }
}

/**
 * Properties of sequences of escrow instructions on one record: how a
 * settlement moves balances, what a failed leg leaves behind, and what
 * replays and late cancellations do.
 */
module Lifecycle {
  import opened Wrappers
  import opened Keys
  import opened Token
  import opened EscrowState
  import opened Instructions
  import opened EscrowProgram

  /** The four token accounts an `accept` touches are four different accounts. */
  predicate AccountsDistinct(a: AcceptAccounts)
  {
    && a.escrowedXTokens != a.buyerXTokens
    && a.escrowedXTokens != a.buyerYTokens
    && a.escrowedXTokens != a.sellersYTokens
    && a.buyerXTokens != a.buyerYTokens
    && a.buyerXTokens != a.sellersYTokens
    && a.buyerYTokens != a.sellersYTokens
  }

  /**
   * A successful `accept` hands the buyer the whole vault, empties it, and
   * moves exactly the asked Y amount from the buyer to the seller's account.
   */
  lemma AcceptSettles(l: Ledger, a: AcceptAccounts)
    requires AccountsDistinct(a)
    requires Accept(l, a).Ok?
    ensures var t := Accept(l, a).value.tokens;
            var y := l.escrows[a.escrow].yAmount;
            && t[a.buyerXTokens].amount == l.tokens[a.buyerXTokens].amount + l.tokens[a.escrowedXTokens].amount
            && t[a.escrowedXTokens].amount == 0
            && t[a.buyerYTokens].amount == l.tokens[a.buyerYTokens].amount - y
            && t[a.sellersYTokens].amount == l.tokens[a.sellersYTokens].amount + y
  {
    var afterX := XLeg(l, a).value;
    assert afterX[a.buyerYTokens] == l.tokens[a.buyerYTokens];
    assert afterX[a.sellersYTokens] == l.tokens[a.sellersYTokens];
  }

  /**
   * With distinct accounts that pass validation, `accept` succeeds exactly
   * when neither credit overflows and the buyer can pay.
   */
  lemma AcceptSucceedsIff(l: Ledger, a: AcceptAccounts)
    requires Valid(l)
    requires AcceptConstraints(l, a)
    requires AccountsDistinct(a)
    ensures var y := l.escrows[a.escrow].yAmount;
            Accept(l, a).Ok?
            <==> && l.tokens[a.buyerXTokens].amount + l.tokens[a.escrowedXTokens].amount <= U64_MAX
                 && y <= l.tokens[a.buyerYTokens].amount
                 && l.tokens[a.sellersYTokens].amount + y <= U64_MAX
  {
    assert EscrowLinked(l, a.escrow);
    var x := XLeg(l, a);
    if x.Ok? {
      assert x.value[a.buyerYTokens] == l.tokens[a.buyerYTokens];
      assert x.value[a.sellersYTokens] == l.tokens[a.sellersYTokens];
    }
  }

  /**
   * Settlement is all or nothing: when the buyer cannot pay, the vault leg,
   * which would go through on its own, leaves no trace either.
   */
  lemma AcceptAtomic(l: Ledger, a: AcceptAccounts)
    requires Valid(l)
    requires AcceptConstraints(l, a)
    requires AccountsDistinct(a)
    requires l.tokens[a.buyerXTokens].amount + l.tokens[a.escrowedXTokens].amount <= U64_MAX
    requires l.tokens[a.buyerYTokens].amount < l.escrows[a.escrow].yAmount
    ensures XLeg(l, a).Ok?
    ensures Accept(l, a) == Err(TokenFailed(InsufficientFunds))
    ensures Commit(l, AcceptIx(a)) == l
  {
    assert EscrowLinked(l, a.escrow);
    assert XLeg(l, a).value[a.buyerYTokens] == l.tokens[a.buyerYTokens];
  }

  /**
   * `accept` is not guarded against replay: on the drained vault the same
   * accounts pass validation again and the vault leg moves nothing.
   */
  lemma AcceptReplayRevalidates(l: Ledger, a: AcceptAccounts)
    requires AccountsDistinct(a)
    requires Accept(l, a).Ok?
    ensures var l1 := Accept(l, a).value;
            && AcceptConstraints(l1, a)
            && l1.tokens[a.escrowedXTokens].amount == 0
            && XLeg(l1, a) == Ok(l1.tokens)
  {
    AcceptSettles(l, a);
    var l1 := Accept(l, a).value;
    var x := XLeg(l1, a);
    assert x.Ok?;
    assert forall k :: k in l1.tokens ==> x.value[k] == l1.tokens[k];
    assert x.value == l1.tokens;
  }

  /**
   * A second `accept` still charges the buyer the full price for nothing:
   * it succeeds exactly when the buyer can pay again, and then the buyer's
   * X balance stays put while Y moves to the seller's account once more.
   */
  lemma AcceptReplayChargesBuyer(l: Ledger, a: AcceptAccounts)
    requires AccountsDistinct(a)
    requires Accept(l, a).Ok?
    ensures var l1 := Accept(l, a).value;
            var y := l.escrows[a.escrow].yAmount;
            && (Accept(l1, a).Ok?
                <==> y <= l1.tokens[a.buyerYTokens].amount && l1.tokens[a.sellersYTokens].amount + y <= U64_MAX)
            && (Accept(l1, a).Ok? ==>
                  var t := Accept(l1, a).value.tokens;
                  && t[a.buyerXTokens] == l1.tokens[a.buyerXTokens]
                  && t[a.escrowedXTokens] == l1.tokens[a.escrowedXTokens]
                  && t[a.buyerYTokens].amount == l1.tokens[a.buyerYTokens].amount - y
                  && t[a.sellersYTokens].amount == l1.tokens[a.sellersYTokens].amount + y)
  {
    AcceptReplayRevalidates(l, a);
    var l1 := Accept(l, a).value;
    if Accept(l1, a).Ok? {
      AcceptSettles(l1, a);
    }
  }

  /**
   * With accounts that pass validation, `cancel` succeeds exactly when the
   * refund does not overflow the seller's account.
   */
  lemma CancelSucceedsIff(l: Ledger, c: CancelAccounts)
    requires Valid(l)
    requires CancelConstraints(l, c)
    ensures Cancel(l, c).Ok?
            <==> l.tokens[c.sellerXToken].amount + l.tokens[c.escrowedXTokens].amount <= U64_MAX
  {
    assert EscrowLinked(l, c.escrow);
    CreateAddressIsNotBase(ESCROW_SEED, c.seller, l.escrows[c.escrow].bump);
    assert c.sellerXToken != c.escrowedXTokens;
  }

  /** After a cancellation, `accept` on that escrow always fails. */
  lemma AcceptAfterCancelFails(l: Ledger, c: CancelAccounts, a: AcceptAccounts)
    requires Cancel(l, c).Ok?
    requires a.escrow == c.escrow || a.escrowedXTokens == c.escrowedXTokens
    ensures Accept(Cancel(l, c).value, a) == Err(AccountNotInitialized)
    ensures AcceptToSeller(Cancel(l, c).value, a).Err?
  {
  }

  /** A cancellation cannot be repeated: the record is gone. */
  lemma CancelAfterCancelFails(l: Ledger, c: CancelAccounts, c': CancelAccounts)
    requires Cancel(l, c).Ok?
    requires c'.escrow == c.escrow
    ensures Cancel(Cancel(l, c).value, c') == Err(AccountNotInitialized)
  {
  }

  /**
   * After a settlement the seller can still cancel with the accounts that
   * would have passed before it: the refund moves nothing, and the vault and
   * the record are torn down.
   */
  lemma CancelAfterAccept(l: Ledger, a: AcceptAccounts, c: CancelAccounts)
    requires Valid(l)
    requires AccountsDistinct(a)
    requires Accept(l, a).Ok?
    requires c.escrow == a.escrow
    requires CancelConstraints(l, c)
    ensures var l1 := Accept(l, a).value;
            && Cancel(l1, c).Ok?
            && Cancel(l1, c).value.tokens[c.sellerXToken] == l1.tokens[c.sellerXToken]
            && c.escrowedXTokens !in Cancel(l1, c).value.tokens
            && c.escrow !in Cancel(l1, c).value.escrows
  {
    AcceptSettles(l, a);
    AcceptPreservesValid(l, a);
    var l1 := Accept(l, a).value;
    assert CancelConstraints(l1, c);
    CancelSucceedsIff(l1, c);
  }

  /**
   * `cancel` signs with seeds built from the caller, `accept` with seeds
   * built from the record; the authority constraint makes both the escrow
   * address.
   */
  lemma SignerSeedsAgree(l: Ledger, a: AcceptAccounts, c: CancelAccounts)
    requires Accept(l, a).Ok? && Cancel(l, c).Ok?
    requires a.escrow == c.escrow
    ensures CreateAddress(ESCROW_SEED, c.seller, l.escrows[c.escrow].bump)
            == EscrowSigner(l.escrows[a.escrow])
            == a.escrow
  {
  }

  /** While a seller's escrow is open, a second `initialize` for that seller fails. */
  lemma NoSecondEscrowPerSeller(l: Ledger, a: InitializeAccounts, xAmount: U64, yAmount: U64)
    requires EscrowAddress(a.seller) in l.escrows
    ensures Initialize(l, a, xAmount, yAmount).Err?
  {
  }
}

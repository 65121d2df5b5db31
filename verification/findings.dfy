/**
 * `accept` checks the mint of the account receiving the buyer's payment but
 * not its owner, so a buyer can name their own Y account as the seller's:
 * the payment then goes from the buyer to the buyer and the vault is emptied
 * for free. `AcceptToSeller` adds the missing owner check.
 */
module Findings {
  import opened Wrappers
  import opened Keys
  import opened Token
  import opened EscrowState
  import opened Instructions

  /**
   * As written: the buyer names their own Y account as the seller's. The
   * instruction succeeds, the buyer receives the whole vault, the buyer's Y
   * balance does not move and no account of the seller changes, while the
   * corrected instruction rejects the same accounts.
   */
  lemma BuyerPaysThemself(l: Ledger, a: AcceptAccounts)
    requires Valid(l)
    requires AcceptConstraints(l, a)
    requires a.sellersYTokens == a.buyerYTokens
    requires a.escrowedXTokens != a.buyerXTokens && a.escrowedXTokens != a.buyerYTokens
    requires a.buyerXTokens != a.buyerYTokens
    requires l.tokens[a.buyerXTokens].owner == a.buyer
    requires a.buyer != l.escrows[a.escrow].authority
    requires l.tokens[a.buyerXTokens].amount + l.tokens[a.escrowedXTokens].amount <= U64_MAX
    requires l.escrows[a.escrow].yAmount <= l.tokens[a.buyerYTokens].amount
    ensures Accept(l, a).Ok?
    ensures var t := Accept(l, a).value.tokens;
            && t[a.buyerXTokens].amount == l.tokens[a.buyerXTokens].amount + l.tokens[a.escrowedXTokens].amount
            && t[a.escrowedXTokens].amount == 0
            && t[a.buyerYTokens] == l.tokens[a.buyerYTokens]
    ensures forall k :: k in l.tokens && l.tokens[k].owner == l.escrows[a.escrow].authority
                        ==> Accept(l, a).value.tokens[k] == l.tokens[k]
    ensures AcceptToSeller(l, a).Err?
  {
    assert EscrowLinked(l, a.escrow);
    var e := l.escrows[a.escrow];
    CreateAddressIsNotBase(ESCROW_SEED, e.authority, e.bump);
    var x := XLeg(l, a);
    assert x.Ok?;
    assert x.value[a.buyerYTokens] == l.tokens[a.buyerYTokens];
  }

  /**
   * Corrected: a settlement the corrected instruction accepts with four
   * distinct accounts credits an account of the seller with exactly the
   * asked amount, and charges the buyer that amount.
   */
  lemma AcceptToSellerPaysSeller(l: Ledger, a: AcceptAccounts)
    requires AcceptToSeller(l, a).Ok?
    requires a.escrowedXTokens != a.buyerXTokens && a.escrowedXTokens != a.buyerYTokens
    requires a.escrowedXTokens != a.sellersYTokens && a.buyerXTokens != a.buyerYTokens
    requires a.buyerXTokens != a.sellersYTokens
    requires a.buyer != l.escrows[a.escrow].authority
    ensures var t := AcceptToSeller(l, a).value.tokens;
            var e := l.escrows[a.escrow];
            && l.tokens[a.sellersYTokens].owner == e.authority
            && t[a.sellersYTokens].amount == l.tokens[a.sellersYTokens].amount + e.yAmount
            && t[a.buyerYTokens].amount == l.tokens[a.buyerYTokens].amount - e.yAmount
  {
    var x := XLeg(l, a).value;
    assert a.buyerYTokens != a.sellersYTokens;
    assert x[a.buyerYTokens] == l.tokens[a.buyerYTokens];
    assert x[a.sellersYTokens] == l.tokens[a.sellersYTokens];
  }
}

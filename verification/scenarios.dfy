/**
 * Concrete runs of the program: a swap of 100 X for 50 Y, a withdrawal
 * before anyone accepts, the order the repository's test suite uses, and
 * the free settlement the missing payee check allows.
 */
module Scenarios {
  import opened Wrappers
  import opened Keys
  import opened Token
  import opened EscrowState
  import opened Instructions
  import opened EscrowProgram
  import opened Lifecycle
  import opened Findings

  const Seller := Key(1)
  const Buyer := Key(2)
  const XMint := Key(10)
  const YMint := Key(11)
  const SellerX := Key(20)
  const SellerY := Key(21)
  const BuyerX := Key(22)
  const BuyerY := Key(23)
  const Vault := Key(30)

  /** Two mints and one account per party and mint; no escrow yet. */
  function Genesis(sellerX: U64, buyerY: U64): (l: Ledger)
    ensures Valid(l)
  {
    Ledger(
      {XMint, YMint},
      map[SellerX := TokenAccount(XMint, Seller, sellerX),
          SellerY := TokenAccount(YMint, Seller, 0),
          BuyerX := TokenAccount(XMint, Buyer, 0),
          BuyerY := TokenAccount(YMint, Buyer, buyerY)],
      map[])
  }

  function Open(xAmount: U64, yAmount: U64): Instruction
  {
    InitializeIx(InitializeAccounts(Seller, XMint, YMint, SellerX, EscrowAddress(Seller), Vault), xAmount, yAmount)
  }

  function Take(sellersY: Pubkey): Instruction
  {
    AcceptIx(AcceptAccounts(Buyer, EscrowAddress(Seller), Vault, sellersY, BuyerX, BuyerY))
  }

  const Withdraw: Instruction := CancelIx(CancelAccounts(Seller, EscrowAddress(Seller), Vault, SellerX))

  /** Opening an escrow from the genesis ledger succeeds whenever the seller holds the deposit. */
  lemma OpenFromGenesis(sellerX: U64, buyerY: U64, xAmount: U64, yAmount: U64)
    requires xAmount <= sellerX
    ensures Run(Genesis(sellerX, buyerY), Open(xAmount, yAmount)).Ok?
    ensures var l1 := Commit(Genesis(sellerX, buyerY), Open(xAmount, yAmount));
            && Valid(l1)
            && l1.tokens[Vault] == TokenAccount(XMint, EscrowAddress(Seller), xAmount)
            && l1.tokens[SellerX] == TokenAccount(XMint, Seller, sellerX - xAmount)
            && l1.tokens[SellerY] == TokenAccount(YMint, Seller, 0)
            && l1.tokens[BuyerX] == TokenAccount(XMint, Buyer, 0)
            && l1.tokens[BuyerY] == TokenAccount(YMint, Buyer, buyerY)
            && l1.escrows.Keys == {EscrowAddress(Seller)}
            && l1.escrows[EscrowAddress(Seller)].authority == Seller
            && l1.escrows[EscrowAddress(Seller)].escrowedXTokens == Vault
            && l1.escrows[EscrowAddress(Seller)].yMint == YMint
            && l1.escrows[EscrowAddress(Seller)].yAmount == yAmount
  {
    var l0 := Genesis(sellerX, buyerY);
    var a := InitializeAccounts(Seller, XMint, YMint, SellerX, EscrowAddress(Seller), Vault);
    assert InitializeConstraints(l0, a);
  }

  /** The escrow the scenarios open, with the accounts it names. */
  function TakeAccounts(sellersY: Pubkey): AcceptAccounts
  {
    AcceptAccounts(Buyer, EscrowAddress(Seller), Vault, sellersY, BuyerX, BuyerY)
  }

  /** Taking the escrow opened from genesis, paying into the seller's Y account. */
  lemma TakeAfterOpen(sellerX: U64, buyerY: U64, xAmount: U64, yAmount: U64)
    requires xAmount <= sellerX
    requires yAmount <= buyerY
    ensures var l1 := Commit(Genesis(sellerX, buyerY), Open(xAmount, yAmount));
            var l2 := Commit(l1, Take(SellerY));
            && Run(l1, Take(SellerY)).Ok?
            && Valid(l2)
            && l2.escrows == l1.escrows
            && l2.tokens.Keys == l1.tokens.Keys
            && l2.tokens[Vault] == TokenAccount(XMint, EscrowAddress(Seller), 0)
            && l2.tokens[SellerX] == l1.tokens[SellerX]
            && l2.tokens[BuyerX] == TokenAccount(XMint, Buyer, xAmount)
            && l2.tokens[BuyerY] == TokenAccount(YMint, Buyer, buyerY - yAmount)
            && l2.tokens[SellerY] == TokenAccount(YMint, Seller, yAmount)
  {
    OpenFromGenesis(sellerX, buyerY, xAmount, yAmount);
    var l1 := Commit(Genesis(sellerX, buyerY), Open(xAmount, yAmount));
    var a := TakeAccounts(SellerY);
    assert AcceptConstraints(l1, a);
    AcceptSucceedsIff(l1, a);
    AcceptSettles(l1, a);
    assert PaysSeller(l1, a);
  }

  /** Withdrawing the escrow opened from genesis, before anyone takes it. */
  lemma WithdrawAfterOpen(sellerX: U64, buyerY: U64, xAmount: U64, yAmount: U64)
    requires xAmount <= sellerX
    ensures var l1 := Commit(Genesis(sellerX, buyerY), Open(xAmount, yAmount));
            var l2 := Commit(l1, Withdraw);
            && Run(l1, Withdraw).Ok?
            && l2.tokens[SellerX] == TokenAccount(XMint, Seller, sellerX)
            && Vault !in l2.tokens
            && l2.escrows == map[]
            && l2.tokens[BuyerX] == l1.tokens[BuyerX]
            && l2.tokens[BuyerY] == l1.tokens[BuyerY]
  {
    OpenFromGenesis(sellerX, buyerY, xAmount, yAmount);
    var l1 := Commit(Genesis(sellerX, buyerY), Open(xAmount, yAmount));
    assert CancelConstraints(l1, Withdraw.cancel);
    CancelSucceedsIff(l1, Withdraw.cancel);
  }

  /** Withdrawing after the escrow was taken: nothing comes back, the escrow is torn down. */
  lemma WithdrawAfterTake(sellerX: U64, buyerY: U64, xAmount: U64, yAmount: U64)
    requires xAmount <= sellerX
    requires yAmount <= buyerY
    ensures var l1 := Commit(Genesis(sellerX, buyerY), Open(xAmount, yAmount));
            var l2 := Commit(l1, Take(SellerY));
            var l3 := Commit(l2, Withdraw);
            && Run(l2, Withdraw).Ok?
            && l3.tokens[SellerX] == l2.tokens[SellerX]
            && Vault !in l3.tokens
            && l3.escrows == map[]
            && l3.tokens[BuyerX] == l2.tokens[BuyerX]
            && l3.tokens[BuyerY] == l2.tokens[BuyerY]
            && l3.tokens[SellerY] == l2.tokens[SellerY]
  {
    OpenFromGenesis(sellerX, buyerY, xAmount, yAmount);
    TakeAfterOpen(sellerX, buyerY, xAmount, yAmount);
    var l1 := Commit(Genesis(sellerX, buyerY), Open(xAmount, yAmount));
    var l2 := Commit(l1, Take(SellerY));
    assert CancelConstraints(l2, Withdraw.cancel);
    CancelSucceedsIff(l2, Withdraw.cancel);
  }

  /** The seller offers 100 X for 50 Y and the buyer, holding exactly 50 Y, takes it. */
  lemma SwapScenario()
    ensures var l0 := Genesis(100, 50);
            var l1 := Commit(l0, Open(100, 50));
            var l2 := Commit(l1, Take(SellerY));
            && Run(l0, Open(100, 50)).Ok? && Run(l1, Take(SellerY)).Ok?
            && l2.tokens[BuyerX].amount == 100
            && l2.tokens[SellerY].amount == 50
            && l2.tokens[Vault].amount == 0
            && l2.tokens[BuyerY].amount == 0
            && l2.tokens[SellerX].amount == 0
  {
    OpenFromGenesis(100, 50, 100, 50);
    TakeAfterOpen(100, 50, 100, 50);
  }

  /** The seller offers 100 X and withdraws before anyone accepts. */
  lemma WithdrawScenario()
    ensures var l0 := Genesis(100, 50);
            var l1 := Commit(l0, Open(100, 50));
            var l2 := Commit(l1, Withdraw);
            && Run(l0, Open(100, 50)).Ok? && Run(l1, Withdraw).Ok?
            && l2.tokens[SellerX].amount == 100
            && Vault !in l2.tokens
            && l2.escrows == map[]
            && l2.tokens[BuyerX] == l0.tokens[BuyerX]
            && l2.tokens[BuyerY] == l0.tokens[BuyerY]
  {
    OpenFromGenesis(100, 50, 100, 50);
    WithdrawAfterOpen(100, 50, 100, 50);
  }

  /**
   * The test suite's order: open for 40 X at 40 Y, accept, then cancel.
   * Every step succeeds; the cancel returns nothing and tears the escrow down.
   */
  lemma TestSuiteOrder()
    ensures var l3 := CommitAll(Genesis(1000, 1000), [Open(40, 40), Take(SellerY), Withdraw]);
            && SellerX in l3.tokens && l3.tokens[SellerX].amount == 960
            && BuyerX in l3.tokens && l3.tokens[BuyerX].amount == 40
            && BuyerY in l3.tokens && l3.tokens[BuyerY].amount == 960
            && SellerY in l3.tokens && l3.tokens[SellerY].amount == 40
            && Vault !in l3.tokens
            && l3.escrows == map[]
  {
    OpenFromGenesis(1000, 1000, 40, 40);
    TakeAfterOpen(1000, 1000, 40, 40);
    WithdrawAfterTake(1000, 1000, 40, 40);
    var l0 := Genesis(1000, 1000);
    var l1 := Commit(l0, Open(40, 40));
    var l2 := Commit(l1, Take(SellerY));
    var l3 := Commit(l2, Withdraw);
    var txs := [Open(40, 40), Take(SellerY), Withdraw];
    assert CommitAll(l2, txs[2..]) == l3 by {
      assert txs[2..][1..] == [];
    }
    assert CommitAll(l1, txs[1..]) == l3 by {
      assert txs[1..][1..] == txs[2..];
    }
  }

  /**
   * The buyer names their own Y account as the seller's: the instruction as
   * written settles, the buyer gets the 100 X and keeps the 50 Y; the
   * corrected instruction refuses.
   */
  lemma FreeSettlementScenario()
    ensures var l1 := Commit(Genesis(100, 50), Open(100, 50));
            var a := TakeAccounts(BuyerY);
            && Accept(l1, a).Ok?
            && Accept(l1, a).value.tokens[BuyerX].amount == 100
            && Accept(l1, a).value.tokens[BuyerY].amount == 50
            && Accept(l1, a).value.tokens[SellerY].amount == 0
            && AcceptToSeller(l1, a) == Err(ConstraintRaw)
  {
    OpenFromGenesis(100, 50, 100, 50);
    var l1 := Commit(Genesis(100, 50), Open(100, 50));
    var a := TakeAccounts(BuyerY);
    assert AcceptConstraints(l1, a);
    BuyerPaysThemself(l1, a);
  }
}

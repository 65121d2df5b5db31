/**
 * The program as the runtime sees it: an instruction is run against the
 * ledger and either all of its effects are kept or none are. Every
 * instruction keeps the ledger's linkage invariant and the supply of every
 * mint.
 */
module EscrowProgram {
  import opened Wrappers
  import opened Keys
  import opened Token
  import opened EscrowState
  import opened Instructions

  /** One instruction of the escrow program with its arguments. */
  datatype Instruction =
    | InitializeIx(init: InitializeAccounts, xAmount: U64, yAmount: U64)
    | AcceptIx(accept: AcceptAccounts)
    | CancelIx(cancel: CancelAccounts)
  {
    /** The identity that signs the transaction. */
    function Caller(): Pubkey
    {
      match this
      case InitializeIx(a, _, _) => a.seller
      case AcceptIx(a) => a.buyer
      case CancelIx(c) => c.seller
    }
  }

  /** Runs one instruction as the program defines it. */
  function Run(l: Ledger, ix: Instruction): Result<Ledger, Error>
  {
    match ix
    case InitializeIx(a, x, y) => Initialize(l, a, x, y)
    case AcceptIx(a) => Accept(l, a)
    case CancelIx(c) => Cancel(l, c)
  }

  // -----------------------------------------------------------------------
  // Conservation
  // -----------------------------------------------------------------------

  /** `initialize` moves X tokens but creates or destroys none. */
  lemma InitializeConserves(l: Ledger, a: InitializeAccounts, xAmount: U64, yAmount: U64, mint: Pubkey)
    requires Initialize(l, a, xAmount, yAmount).Ok?
    ensures Supply(Initialize(l, a, xAmount, yAmount).value.tokens, mint) == Supply(l.tokens, mint)
  {
    var vault := TokenAccount(a.xMint, a.escrow, 0);
    SupplyInsert(l.tokens, a.escrowedXTokens, vault, mint);
    TransferConserves(l.tokens[a.escrowedXTokens := vault], a.sellerXToken, a.escrowedXTokens, a.seller, xAmount, mint);
  }

  /** Both legs of `accept` together conserve every mint's supply. */
  lemma AcceptConserves(l: Ledger, a: AcceptAccounts, mint: Pubkey)
    requires Accept(l, a).Ok?
    ensures Supply(Accept(l, a).value.tokens, mint) == Supply(l.tokens, mint)
  {
    var e := l.escrows[a.escrow];
    var afterX := XLeg(l, a).value;
    TransferConserves(l.tokens, a.escrowedXTokens, a.buyerXTokens, EscrowSigner(e), l.tokens[a.escrowedXTokens].amount, mint);
    TransferConserves(afterX, a.buyerYTokens, a.sellersYTokens, a.buyer, e.yAmount, mint);
  }

  /** The refund and the close of `cancel` conserve every mint's supply. */
  lemma CancelConserves(l: Ledger, c: CancelAccounts, mint: Pubkey)
    requires Cancel(l, c).Ok?
    ensures Supply(Cancel(l, c).value.tokens, mint) == Supply(l.tokens, mint)
  {
    var signer := CreateAddress(ESCROW_SEED, c.seller, l.escrows[c.escrow].bump);
    var amount := l.tokens[c.escrowedXTokens].amount;
    TransferConserves(l.tokens, c.escrowedXTokens, c.sellerXToken, signer, amount, mint);
    var afterRefund := Transfer(l.tokens, c.escrowedXTokens, c.sellerXToken, signer, amount).value;
    CloseConserves(afterRefund, c.escrowedXTokens, signer, mint);
  }

  /** No instruction creates or destroys tokens of any mint. */
  lemma RunConserves(l: Ledger, ix: Instruction, mint: Pubkey)
    requires Run(l, ix).Ok?
    ensures Supply(Run(l, ix).value.tokens, mint) == Supply(l.tokens, mint)
  {
    match ix
    case InitializeIx(a, x, y) => InitializeConserves(l, a, x, y, mint);
    case AcceptIx(a) => AcceptConserves(l, a, mint);
    case CancelIx(c) => CancelConserves(l, c, mint);
  }

  // -----------------------------------------------------------------------
  // The linkage invariant
  // -----------------------------------------------------------------------

  lemma InitializePreservesValid(l: Ledger, a: InitializeAccounts, xAmount: U64, yAmount: U64)
    requires Valid(l)
    requires Initialize(l, a, xAmount, yAmount).Ok?
    ensures Valid(Initialize(l, a, xAmount, yAmount).value)
  {
    var l' := Initialize(l, a, xAmount, yAmount).value;
    forall b | b in l'.escrows
      ensures EscrowLinked(l', b)
    {
      if b != a.escrow {
        assert EscrowLinked(l, b);
      }
    }
  }

  lemma AcceptPreservesValid(l: Ledger, a: AcceptAccounts)
    requires Valid(l)
    requires Accept(l, a).Ok?
    ensures Valid(Accept(l, a).value)
  {
    var l' := Accept(l, a).value;
    forall b | b in l'.escrows
      ensures EscrowLinked(l', b)
    {
      assert EscrowLinked(l, b);
    }
  }

  lemma CancelPreservesValid(l: Ledger, c: CancelAccounts)
    requires Valid(l)
    requires Cancel(l, c).Ok?
    ensures Valid(Cancel(l, c).value)
  {
    var l' := Cancel(l, c).value;
    forall b | b in l'.escrows
      ensures EscrowLinked(l', b)
    {
      assert EscrowLinked(l, b);
      assert l.tokens[l.escrows[b].escrowedXTokens].owner == b;
      assert l.tokens[c.escrowedXTokens].owner == c.escrow;
    }
  }

  /** Every instruction keeps every record linked to its address and vault. */
  lemma RunPreservesValid(l: Ledger, ix: Instruction)
    requires Valid(l)
    requires Run(l, ix).Ok?
    ensures Valid(Run(l, ix).value)
  {
    match ix
    case InitializeIx(a, x, y) => InitializePreservesValid(l, a, x, y);
    case AcceptIx(a) => AcceptPreservesValid(l, a);
    case CancelIx(c) => CancelPreservesValid(l, c);
  }

  /**
   * The terms of an escrow never change while it exists: an instruction
   * either leaves a record exactly as it was or removes it.
   */
  lemma RunKeepsRecords(l: Ledger, ix: Instruction, b: Pubkey)
    requires Run(l, ix).Ok?
    requires b in l.escrows && b in Run(l, ix).value.escrows
    ensures Run(l, ix).value.escrows[b] == l.escrows[b]
  {
  }

  // -----------------------------------------------------------------------
  // All-or-nothing execution
  // -----------------------------------------------------------------------

  /**
   * The ledger after the runtime executed `ix`: the instruction's result if
   * it succeeded, otherwise the ledger exactly as before.
   */
  function Commit(l: Ledger, ix: Instruction): (l': Ledger)
    ensures Run(l, ix).Err? ==> l' == l
    ensures Valid(l) ==> Valid(l')
    ensures Run(l, ix).Ok? ==> l' == Run(l, ix).value
  {
    var r := Run(l, ix);
    if r.Ok? then
      assert Valid(l) ==> Valid(r.value) by {
        if Valid(l) { RunPreservesValid(l, ix); }
      }
      r.value
    else l
  }

  /** Executes a sequence of transactions one after the other. */
  function CommitAll(l: Ledger, txs: seq<Instruction>): Ledger
    decreases |txs|
  {
    if txs == [] then l else CommitAll(Commit(l, txs[0]), txs[1..])
  }

  /** Any sequence of transactions keeps the linkage invariant. */
  lemma {:induction false} CommitAllPreservesValid(l: Ledger, txs: seq<Instruction>)
    requires Valid(l)
    ensures Valid(CommitAll(l, txs))
    decreases |txs|
  {
    if txs != [] {
      CommitAllPreservesValid(Commit(l, txs[0]), txs[1..]);
    }
  }

  /** Any sequence of transactions keeps the supply of every mint. */
  lemma {:induction false} CommitAllConserves(l: Ledger, txs: seq<Instruction>, mint: Pubkey)
    ensures Supply(CommitAll(l, txs).tokens, mint) == Supply(l.tokens, mint)
    decreases |txs|
  {
    if txs != [] {
      if Run(l, txs[0]).Ok? {
        RunConserves(l, txs[0], mint);
      }
      CommitAllConserves(Commit(l, txs[0]), txs[1..], mint);
    }
  }

  // -----------------------------------------------------------------------
  // Who may move a vault
  // -----------------------------------------------------------------------

  /**
   * A vault's balance falls, or the vault disappears, only through `accept`
   * or `cancel` naming that vault's own escrow: any other instruction,
   * whoever signs it, leaves the vault in place with at least its balance.
   */
  lemma VaultDrainedOnlyByItsEscrow(l: Ledger, ix: Instruction, a: Pubkey)
    requires Valid(l)
    requires a in l.escrows
    requires ix.Caller().Key?
    requires Run(l, ix).Ok?
    requires !(ix.AcceptIx? && ix.accept.escrow == a) && !(ix.CancelIx? && ix.cancel.escrow == a)
    ensures l.escrows[a].escrowedXTokens in Run(l, ix).value.tokens
    ensures Run(l, ix).value.tokens[l.escrows[a].escrowedXTokens].amount
            >= l.tokens[l.escrows[a].escrowedXTokens].amount
  {
    var v := l.escrows[a].escrowedXTokens;
    assert EscrowLinked(l, a);
    match ix
    case InitializeIx(ia, x, y) =>
      assert ia.sellerXToken != v;
    case AcceptIx(aa) =>
      assert v != aa.escrowedXTokens && v != aa.buyerYTokens;
    case CancelIx(cc) =>
      assert v != cc.escrowedXTokens && v != cc.sellerXToken;
  }

  // -----------------------------------------------------------------------
  // The program with the payee check `accept` lacks
  // -----------------------------------------------------------------------

  /** Runs one instruction, with `accept` replaced by `AcceptToSeller`. */
  function RunCorrected(l: Ledger, ix: Instruction): (r: Result<Ledger, Error>)
    ensures r.Ok? ==> r == Run(l, ix)
    ensures ix.AcceptIx? ==> (r.Ok? <==> PaysSeller(l, ix.accept) && Run(l, ix).Ok?)
    ensures !ix.AcceptIx? ==> r == Run(l, ix)
  {
    match ix
    case AcceptIx(a) => AcceptToSeller(l, a)
    case _ => Run(l, ix)
  }

  /** `Commit` for the corrected program. */
  function CommitCorrected(l: Ledger, ix: Instruction): (l': Ledger)
    ensures RunCorrected(l, ix).Err? ==> l' == l
    ensures Valid(l) ==> Valid(l')
    ensures RunCorrected(l, ix).Ok? ==> l' == RunCorrected(l, ix).value
  {
    var r := RunCorrected(l, ix);
    if r.Ok? then
      assert Valid(l) ==> Valid(r.value) by {
        if Valid(l) { RunPreservesValid(l, ix); }
      }
      r.value
    else l
  }

  /** Executes a sequence of transactions with the corrected program. */
  function CommitAllCorrected(l: Ledger, txs: seq<Instruction>): Ledger
    decreases |txs|
  {
    if txs == [] then l else CommitAllCorrected(CommitCorrected(l, txs[0]), txs[1..])
  }

  /** The corrected program keeps the linkage invariant over any sequence. */
  lemma {:induction false} CommitAllCorrectedPreservesValid(l: Ledger, txs: seq<Instruction>)
    requires Valid(l)
    ensures Valid(CommitAllCorrected(l, txs))
    decreases |txs|
  {
    if txs != [] {
      CommitAllCorrectedPreservesValid(CommitCorrected(l, txs[0]), txs[1..]);
    }
  }

  /** The corrected program keeps the supply of every mint over any sequence. */
  lemma {:induction false} CommitAllCorrectedConserves(l: Ledger, txs: seq<Instruction>, mint: Pubkey)
    ensures Supply(CommitAllCorrected(l, txs).tokens, mint) == Supply(l.tokens, mint)
    decreases |txs|
  {
    if txs != [] {
      if RunCorrected(l, txs[0]).Ok? {
        RunConserves(l, txs[0], mint);
      }
      CommitAllCorrectedConserves(CommitCorrected(l, txs[0]), txs[1..], mint);
    }
  }
}

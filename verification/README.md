# mint-escrow: a Dafny model of the escrow program

This project models the escrow part of the `mint_escrow` Anchor program. A seller locks X tokens
in a vault whose only authority is a program-derived address. A buyer can then swap Y tokens for
the whole vault, or the seller can take the deposit back. The model covers the three instructions
`initialize`, `accept` and `cancel`, together with the account constraints each one checks, and
proves what they do to an abstract ledger.

- **Keys** (`keys.dfy`). Addresses are either wallet keys (`Key`) or program-derived addresses
  (`Derived(seed, base, bump)`). The seeds stand in for the hash, so derivation is injective by
  construction. A derived address is never a key and never its own base. `FindAddress` plays the
  role of `find_program_address`, and `U8`/`U64` are the Rust integer widths.
- **Token** (`token.dfy`). SPL `transfer` and `close_account` are modelled as failable primitives
  over a map from account id to `(mint, owner, amount)`. Transfer fails on insufficient funds, a
  mint mismatch, an authority that is not the owner, or a destination overflow. A self-transfer
  passes the checks and changes nothing. Close fails on a missing account, a non-zero balance or
  the wrong authority. `Supply` sums one mint over all accounts, and both primitives conserve it.
- **EscrowState** (`escrow_state.dfy`). This holds the `Escrow` record, its account size
  `ESCROW_LEN` = 8 + 1 + 32 + 32 + 32 + 8 = 113 bytes, and the ledger (mints, token accounts,
  escrow records). It also defines the invariant `Valid`: each record sits at its seller's
  canonical address, and its vault exists and is owned by that address.
- **Instructions** (`instructions.dfy`). One function per instruction. Each checks the same
  constraints as the source's `#[derive(Accounts)]` structs, then runs the token calls. It returns
  either the new ledger or an `Error`. Validation errors and token-program errors are kept apart.
- **EscrowProgram** (`program.dfy`). `Run` dispatches an instruction as the program defines it.
  `Commit` keeps the result on success and the old ledger on failure, which is the runtime's
  all-or-nothing execution. `CommitAll` runs a sequence of transactions. This module also proves
  conservation, invariant preservation, and which instructions can drain a vault. `RunCorrected`,
  `CommitCorrected` and `CommitAllCorrected` are the same program with `accept` replaced by the
  corrected `Instructions.AcceptToSeller`.
- **Lifecycle** (`lifecycle.dfy`). Settlement balances, atomicity of the two `accept` legs, replayed
  `accept`, `cancel` after `accept`, and `accept` after `cancel`.
- **Findings** (`findings.dfy`) and **Scenarios** (`scenarios.dfy`). The missing payee check
  described below, plus concrete runs: a 100 X for 50 Y swap, a withdrawal, and the test suite's
  order (initialize, accept, cancel).

Two behaviours of the code differ from what the program is meant to do. In both, the model
follows the code:

- `cancel` is meant to be open to the seller only, and only before `accept`. The code does not
  refuse a `cancel` after `accept`, and neither does the model: `Lifecycle.CancelAfterAccept`
  shows that it succeeds and moves nothing.
- A wrong `cancel` signer is reported as an ordinary constraint failure, not as a separate
  authorization error. The model reports it as `ConstraintRaw`.

## Model

| member | source | states |
|---|---|---|
| `Keys.CreateAddress` | programs/mint-escrow/src/lib.rs:248-249 | the address re-derived from seeds and a bump is never a key that a wallet can sign with |
| `Keys.FindAddress` | programs/mint-escrow/src/lib.rs:223-224 | the canonical escrow address is the one its returned bump re-derives |
| `Keys.CreateAddressInjective` | programs/mint-escrow/src/lib.rs:285-286 | two seed/bump combinations that give the same address are the same combination |
| `Keys.CreateAddressIsNotBase` | programs/mint-escrow/src/lib.rs:154 | the escrow address derived from a seller is never the seller itself |
| `Token.Transfer` | programs/mint-escrow/src/lib.rs:96-106 | a transfer succeeds exactly when both accounts exist, the balance covers the amount, the mints agree, the authority owns the source and the destination cannot overflow; it then debits the source, credits the destination and changes nothing else |
| `Token.Close` | programs/mint-escrow/src/lib.rs:160-168 | close succeeds exactly when the account exists, is empty and the authority owns it; it then removes that account and nothing else |
| `Token.TransferConserves` | programs/mint-escrow/src/lib.rs:96-106 | a successful transfer leaves the total supply of every mint unchanged |
| `Token.CloseConserves` | programs/mint-escrow/src/lib.rs:160-168 | closing the vault leaves the total supply of every mint unchanged |
| `Token.NoKeyMovesDerivedAccount` | programs/mint-escrow/src/lib.rs:231 | no wallet key can move tokens out of an account owned by a derived address |
| `EscrowState.OneEscrowPerSeller` | programs/mint-escrow/src/lib.rs:219-226 | in a valid ledger two records with the same seller are the same record |
| `EscrowState.VaultsAreDistinct` | programs/mint-escrow/src/lib.rs:227-233 | in a valid ledger two escrows never share a vault |
| `Instructions.Initialize` | programs/mint-escrow/src/lib.rs:86-107 | succeeds exactly when the constraints of lines 215-233 hold and the seller holds the deposit; any constraint failure is a validation error; on success the record at the seller's derived address holds seller, bump, vault, Y mint and Y amount; the vault is a new account of mint X owned by the escrow address and holding the deposit; the seller's account falls by the deposit and every other account is unchanged |
| `Instructions.Accept` | programs/mint-escrow/src/lib.rs:111-140 | a constraint failure (lines 246-271) is a validation error that runs no transfer; once the constraints hold, the only errors are token errors; on success the records and mints are unchanged, only the vault, the buyer's two accounts and the seller's Y account can change, only the vault and the buyer's Y account can fall, and the vault is owned by the escrow address that signed |
| `Instructions.AcceptToSeller` | programs/mint-escrow/src/lib.rs:258 | `accept` with the missing owner check: succeeds exactly when `accept` does and the payee account belongs to the seller; then the seller's account gains at least the asked Y amount |
| `Instructions.Cancel` | programs/mint-escrow/src/lib.rs:144-170 | a constraint failure (lines 282-296) is a validation error; once the constraints hold, the only errors are token errors; on success the caller's signer seeds give the escrow address, the vault and the record are removed, the seller's X account gains the whole vault balance, and every other account and record is unchanged |
| `EscrowProgram.InitializeConserves` | programs/mint-escrow/src/lib.rs:95-106 | `initialize` leaves the supply of every mint unchanged |
| `EscrowProgram.AcceptConserves` | programs/mint-escrow/src/lib.rs:112-138 | both legs of `accept` together leave the supply of every mint unchanged |
| `EscrowProgram.CancelConserves` | programs/mint-escrow/src/lib.rs:145-168 | the refund and the close leave the supply of every mint unchanged |
| `EscrowProgram.RunConserves` | programs/mint-escrow/src/lib.rs:86-170 | no instruction creates or destroys tokens |
| `EscrowProgram.InitializePreservesValid` | programs/mint-escrow/src/lib.rs:219-233 | `initialize` keeps every record at its seller's canonical address with an existing vault owned by that address |
| `EscrowProgram.AcceptPreservesValid` | programs/mint-escrow/src/lib.rs:246-255 | `accept` keeps the linkage invariant |
| `EscrowProgram.CancelPreservesValid` | programs/mint-escrow/src/lib.rs:282-290 | `cancel` keeps the linkage invariant for every remaining record |
| `EscrowProgram.RunPreservesValid` | programs/mint-escrow/src/lib.rs:211-298 | every instruction keeps the linkage invariant |
| `EscrowProgram.RunKeepsRecords` | programs/mint-escrow/src/lib.rs:302-309 | no instruction changes the terms of a record that survives it |
| `EscrowProgram.Commit` | programs/mint-escrow/src/lib.rs:113-138 | a failed instruction leaves the ledger exactly as it was; a committed ledger stays valid |
| `EscrowProgram.CommitAllPreservesValid` | programs/mint-escrow/src/lib.rs:211-298 | any sequence of transactions keeps the linkage invariant |
| `EscrowProgram.CommitAllConserves` | programs/mint-escrow/src/lib.rs:86-170 | any sequence of transactions, failed ones included, keeps the supply of every mint |
| `EscrowProgram.RunCorrected` | programs/mint-escrow/src/lib.rs:258 | the corrected program succeeds only where the program as written does, with the same result; `accept` succeeds exactly when the payee account belongs to the seller and `accept` as written succeeds; every other instruction is unchanged |
| `EscrowProgram.CommitCorrected` | programs/mint-escrow/src/lib.rs:113-138 | a refused instruction of the corrected program leaves the ledger exactly as it was; a committed ledger stays valid |
| `EscrowProgram.CommitAllCorrectedPreservesValid` | programs/mint-escrow/src/lib.rs:211-298 | any sequence of transactions under the corrected program keeps the linkage invariant |
| `EscrowProgram.CommitAllCorrectedConserves` | programs/mint-escrow/src/lib.rs:86-170 | any sequence of transactions under the corrected program keeps the supply of every mint |
| `EscrowProgram.VaultDrainedOnlyByItsEscrow` | programs/mint-escrow/src/lib.rs:227-233 | an instruction from a wallet that is not `accept` or `cancel` on the vault's own escrow leaves that vault in place with at least its balance |
| `Lifecycle.AcceptSettles` | programs/mint-escrow/src/lib.rs:111-140 | after `accept` the buyer's X account gains the whole prior vault balance, the vault holds 0, the buyer's Y account loses the asked amount and the seller's gains it |
| `Lifecycle.AcceptSucceedsIff` | programs/mint-escrow/src/lib.rs:113-138 | when validation passes, `accept` succeeds exactly when the buyer can pay and neither credit overflows |
| `Lifecycle.AcceptAtomic` | programs/mint-escrow/src/lib.rs:113-138 | when the buyer cannot pay, the vault leg would succeed alone, yet `accept` fails with insufficient funds and the committed ledger is the old one |
| `Lifecycle.AcceptReplayRevalidates` | programs/mint-escrow/src/lib.rs:123 | after `accept` the same accounts pass validation again, and the vault leg moves nothing |
| `Lifecycle.AcceptReplayChargesBuyer` | programs/mint-escrow/src/lib.rs:137 | a second `accept` succeeds exactly when the buyer can pay again; it then leaves the buyer's X and the vault unchanged while charging the asked Y amount once more |
| `Lifecycle.CancelSucceedsIff` | programs/mint-escrow/src/lib.rs:146-168 | when validation passes, `cancel` succeeds exactly when the refund does not overflow the seller's account |
| `Lifecycle.AcceptAfterCancelFails` | programs/mint-escrow/src/lib.rs:282-289 | after `cancel`, any `accept` naming that escrow or that vault fails |
| `Lifecycle.CancelAfterCancelFails` | programs/mint-escrow/src/lib.rs:282-288 | a second `cancel` on the same escrow fails |
| `Lifecycle.CancelAfterAccept` | programs/mint-escrow/src/lib.rs:146-168 | after `accept`, `cancel` succeeds, returns nothing to the seller's X account and removes the vault and the record |
| `Lifecycle.SignerSeedsAgree` | programs/mint-escrow/src/lib.rs:154 | the signer `cancel` builds from the caller equals the one `accept` builds from the record, and both are the escrow address |
| `Lifecycle.NoSecondEscrowPerSeller` | programs/mint-escrow/src/lib.rs:219-225 | while a seller's escrow exists, `initialize` for that seller fails |
| `Findings.BuyerPaysThemself` | programs/mint-escrow/src/lib.rs:258 | with the buyer's own Y account named as the seller's, `accept` as written succeeds, gives the buyer the vault, leaves the buyer's Y and every seller account unchanged; `AcceptToSeller` refuses it |
| `Findings.AcceptToSellerPaysSeller` | programs/mint-escrow/src/lib.rs:127-138 | with the check, an account of the seller gains exactly the asked Y amount and the buyer pays it |
| `Scenarios.SwapScenario` | programs/mint-escrow/src/lib.rs:86-140 | a seller with 100 X offers it for 50 Y; a buyer with exactly 50 Y accepts; the buyer ends with 100 X, the seller with 50 Y, the vault with 0 |
| `Scenarios.WithdrawScenario` | programs/mint-escrow/src/lib.rs:144-170 | a seller offers 100 X and cancels; the seller regains 100 X, the vault and the record are gone, and the buyer's accounts are untouched |
| `Scenarios.TestSuiteOrder` | tests/mint-escrow.ts:327-380 | initialize (40 X for 40 Y), then accept, then cancel all succeed; the balances end as expected and the vault and the record are removed |
| `Scenarios.FreeSettlementScenario` | programs/mint-escrow/src/lib.rs:258 | concrete case: the buyer takes 100 X and keeps all 50 Y, and the corrected instruction refuses the same accounts |

## Findings

| source | as written | input that shows it | evidently intended | confidence | as-written member | corrected member |
|---|---|---|---|---|---|---|
| programs/mint-escrow/src/lib.rs:258 | `sellers_y_tokens` is checked for its mint only, never for its owner | `accept` with `sellers_y_tokens` = `buyer_y_tokens` (`Scenarios.FreeSettlementScenario`): the Y leg is a self-transfer and the buyer gets the vault for free | `sellers_y_tokens.owner == escrow.authority` | high; not executed | `Findings.BuyerPaysThemself` | `Instructions.AcceptToSeller` |

`EscrowProgram.Run`, `Commit` and `CommitAll` run `accept` as written. `EscrowProgram.RunCorrected`,
`CommitCorrected` and `CommitAllCorrected` run `Instructions.AcceptToSeller` instead. Every property
of a successful `Instructions.Accept` holds for a successful `AcceptToSeller`, because the two then
return the same ledger. The error paths differ: when the constraints hold but the payee account is
not the seller's, `AcceptToSeller` fails with `ConstraintRaw` without running a transfer, so
`Accept`'s "once the constraints hold, every error is a token error" and the success conditions of
`Lifecycle.AcceptSucceedsIff` do not carry over unchanged; `AcceptToSeller` succeeds exactly when
that check passes and `Accept` succeeds.

## Left out

- `mint_token`, `MintToken` and `MintError` (lib.rs:13-83, 177-207, 317-324): calls to the external token-metadata program with no escrow invariants.
- The SHA-256 program-address hash and the off-curve bump search: an address is represented by its seeds. `Keys.CanonicalBump` returns 255, the first candidate the search tries, and no property depends on that value.
- Lamports and rent: the rent `init` charges the seller, the lamports `close_account` and the `close = seller` constraint return to the seller, and SPL's refusal to close an account into itself.
- The 8-byte account discriminator and the Borsh layout of `Escrow`: only the size constant `ESCROW_LEN` is stated.
- Signer checks, and the checks on the token-program, system-program and rent accounts: the caller's identity is an input. `EscrowProgram.VaultDrainedOnlyByItsEscrow` assumes the caller is a wallet key, because a derived address cannot sign a transaction.
- Not modelled in the token program: frozen accounts (a transfer from or to one then fails), delegates, a separate close authority, native (wrapped SOL) accounts.
- Anchor's exact error codes: the model reports which kind of check failed, following the order of the structs' fields. Callers see only failure or success.
- Token-account operations outside this program, such as another program changing an account's owner: the ledger changes only through the three instructions.
- Concurrency: each instruction runs alone, and its atomicity is modelled by `EscrowProgram.Commit`.
- `Lifecycle.AcceptSettles`: exact balances are stated only when the four token accounts are distinct. With aliased accounts only the frame and conservation are stated.
- `Lifecycle.AcceptSucceedsIff`: stated for four distinct accounts only.
- `Lifecycle.AcceptAtomic`: stated for four distinct accounts and for a first leg that does not overflow.
- `Lifecycle.AcceptReplayRevalidates`: stated for four distinct accounts only.
- `Lifecycle.AcceptReplayChargesBuyer`: stated for four distinct accounts only.
- `Lifecycle.CancelAfterAccept`: stated for an `accept` with four distinct accounts. If the buyer's X account is the vault itself, the vault is not drained and `cancel` refunds it.
- `Findings.AcceptToSellerPaysSeller`: stated for four distinct accounts and a buyer who is not the seller.

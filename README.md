# country_loan ledger model

A Dafny model of `country_loan`, an Anchor program for Solana that runs a collateral
ledger. A protocol admin writes a singleton configuration record. Each wallet opens one
user account with eight `u64` balance slots. The admin registers collateral vaults,
one per (admin, mint). A user deposits SPL tokens into a vault's token account, which
credits one slot. A borrower opens a loan against a vault, which debits that slot and
raises the account's active-loan flag.

The model has three layers:

- **Step functions.** `State.Ledger` is the value of every account the program touches.
  Each of the five instruction handlers is a step function `Ledger -> Result<Ledger>`, in
  its own module (`ConfigInstruction`, `UserInstruction`, `VaultInstruction`,
  `DepositInstruction`, `LoanInstruction`). A step function runs Anchor's account
  validation first: an account that must exist but does not gives
  `AccountNotInitialized`, then the `constraint`/`has_one` clauses are checked in
  declaration order. After that comes the handler body. An `Err` means the transaction
  reverted, so `State.Commit` keeps the old ledger.
- **Imperative handlers.** `Program.CountryLoan` holds the accounts as mutable fields.
  Its five handler methods write in place, and each is proved to agree with its step
  function, both in the status it returns and in the new state.
- **Transactions.** `Transactions` runs sequences of instructions. It proves:
  - an invariant that every reachable ledger keeps;
  - that no account is ever closed;
  - that no sequence changes the supply of any mint.

Edge cases and quirks are proved as the code has them:
- The four records a handler writes (config, user account, vault, loan) use
  `init_if_needed`: an existing record never makes a repeat call fail, it is
  overwritten. There is no already-initialised guard, so a second
  `initialize_config` or `init_user` succeeds and `admin` can change hands.
- Anyone can become admin by calling `initialize_config`.
- There is no duplicate-vault check and no error code for one; a second
  `register_token` by the admin overwrites the vault record.
- A vault may store a mint that differs from the mint account its address is derived
  from.
- A deposit of 0 is not refused; it succeeds and changes nothing.
- A deposit whose vault address is the user's own token account credits the slot but
  moves no tokens.
- A second loan against the same vault replaces the first record and loses the first
  loan's collateral amount.
- The `owner == borrower` constraint can never fail in a reachable ledger.

`Clock::get()?.unix_timestamp` is the parameter `now` of the loan instruction.

## Model

| member | source | states |
|---|---|---|
| Token.Transfer | programs/country_loan/src/instructions/deposit.rs:51-58 | The SPL transfer fails exactly when the source holds less than `amount` (`InsufficientFunds`) or the destination would pass `u64::MAX` (`Overflow`). On success it debits the source and credits the destination by exactly `amount`, and no other account changes. A transfer to the same account changes nothing. |
| Token.TransferConservesSupply | programs/country_loan/src/instructions/deposit.rs:52-58 | A successful transfer between two accounts of one mint leaves that mint's total over all token accounts unchanged. |
| Token.SupplyRemove | programs/country_loan/src/instructions/deposit.rs:52-58 | A mint's total is that of the other accounts plus the holding of any one account (proved by induction). |
| Token.SupplyUpdate | programs/country_loan/src/instructions/deposit.rs:52-58 | Replacing one token account changes the total by the difference of the old and new holdings. |
| ConfigInstruction.InitializeConfigWrites | programs/country_loan/src/instructions/init_config.rs:22-34 | With any three `u64` arguments the call succeeds. The config then holds exactly those three values, with the signer as admin. No user, vault, loan or token account changes. |
| ConfigInstruction.InitializeConfigOverwrites | programs/country_loan/src/instructions/init_config.rs:7-32 | A repeat call succeeds, and its result does not depend on the config that was there: the second signer replaces the first as admin. |
| UserInstruction.InitUserWrites | programs/country_loan/src/instructions/init_user.rs:6-28 | Always succeeds. The wallet has exactly one account, its owner is the signer, and no other account changes. A new account has eight zero slots and no active loan. For an existing account, the slots and the loan flag survive. |
| UserInstruction.InitUserIdempotent | programs/country_loan/src/instructions/init_user.rs:21-28 | Running `init_user` twice gives the same ledger as running it once. |
| VaultInstruction.RegisterTokenChecks | programs/country_loan/src/instructions/register_token.rs:20-25 | A missing config gives `AccountNotInitialized`. A signer other than the config's admin gives `Unauthorized`. The call succeeds exactly when the signer is the admin. |
| VaultInstruction.RegisterTokenWrites | programs/country_loan/src/instructions/register_token.rs:42-54 | On success the record under (admin, mint account) holds exactly the vault address, mint and price-feed arguments, unvalidated, and the stored mint need not be the mint account. The config and every other record are unchanged. |
| VaultInstruction.RegisterTokenOverwrites | programs/country_loan/src/instructions/register_token.rs:11-18 | Registering the same (admin, mint account) again succeeds, and the last call decides the record. |
| DepositInstruction.DepositChecks | programs/country_loan/src/instructions/deposit.rs:28-66 | The deposit's checks in order, first failure wins: missing accounts (`AccountNotInitialized`); the two token-account mints (`InvalidTokenMint`); the owner (`InvalidTokenOwner`); the vault address (`InvalidVaultAddress`); an index 8 or more (`InvalidTokenMint`); the transfer's own errors; a slot overflow (`InvalidTokenMint`). |
| DepositInstruction.DepositSucceedsIff | programs/country_loan/src/instructions/deposit.rs:28-66 | A deposit succeeds exactly when every constraint holds, the index is below 8, the source covers `amount`, the vault's token account does not overflow (or is the source itself), and the slot does not overflow. |
| DepositInstruction.DepositCredits | programs/country_loan/src/instructions/deposit.rs:60-66 | On success slot `token_index` grows by exactly `amount`. The other seven slots, the owner, the loan flag, every other user, the config, the vaults and the loans are unchanged. |
| DepositInstruction.DepositMovesTokens | programs/country_loan/src/instructions/deposit.rs:51-58 | On success with two distinct accounts, the user's token account loses exactly `amount` and the vault's gains it. No other token account changes, and every mint's supply is conserved. |
| DepositInstruction.DepositSelfTransfer | programs/country_loan/src/instructions/deposit.rs:35-66 | When the vault's token account is the user's own, a successful deposit moves no tokens yet still credits the slot by `amount`. |
| DepositInstruction.DepositZeroAmount | programs/country_loan/src/instructions/deposit.rs:47-66 | An amount of 0 is not refused: when the constraints hold and the index is in range, the deposit succeeds and the ledger is unchanged. |
| LoanInstruction.InitializeLoanChecks | programs/country_loan/src/instructions/init_loan.rs:17-65 | The loan's checks in order, first failure wins: missing user, vault or config (`AccountNotInitialized`); owner (`UnauthorizedAccess`); loan amount, then collateral amount (`InvalidAmount`); duration (`InvalidDuration`); index (`InvalidTokenIndex`); slot below the collateral (`InsufficientCollateral`). |
| LoanInstruction.InitializeLoanSucceedsIff | programs/country_loan/src/instructions/init_loan.rs:55-83 | A request succeeds exactly when all those checks pass. `ArithmeticError` is never returned, because the `checked_sub` after the sufficiency check cannot fail. |
| LoanInstruction.InitializeLoanRecords | programs/country_loan/src/instructions/init_loan.rs:67-76 | On success the loan keyed by (borrower, vault address) holds the borrower, the vault, both amounts, the config's interest rate, the clock time and the duration, and is active. Other loans are unchanged. |
| LoanInstruction.InitializeLoanDebits | programs/country_loan/src/instructions/init_loan.rs:78-85 | On success the old slot equals the new slot plus the loan's `collateral_amount`, and the loan flag is raised. The other slots, the owner, every other user, the config, the vaults and the token accounts are unchanged. |
| LoanInstruction.InitializeLoanIgnoresPrices | programs/country_loan/src/instructions/init_loan.rs:48-65 | Whether a request succeeds depends only on the user accounts and on which vaults and config exist. It does not depend on the price feeds, the liquidation threshold, the staleness bound, the interest rate, the existing loans or the token balances: the only collateral test is raw units in the slot. |
| LoanInstruction.InitializeLoanOverwrites | programs/country_loan/src/instructions/init_loan.rs:8-15 | A second request against the same vault succeeds and replaces the first loan's record. The slot has lost the collateral twice, while only one amount is still recorded on a loan. |
| Program.CountryLoan.InitializeConfig | programs/country_loan/src/instructions/init_config.rs:22-35 | The in-place handler returns the step function's status. The new state is the step function's result. |
| Program.CountryLoan.InitUser | programs/country_loan/src/instructions/init_user.rs:21-29 | The in-place handler returns the step function's status. The new state is the step function's result. |
| Program.CountryLoan.RegisterToken | programs/country_loan/src/instructions/register_token.rs:20-54 | The in-place handler returns the step function's status. The new state is the step function's result, or the old state on failure. |
| Program.CountryLoan.Deposit | programs/country_loan/src/instructions/deposit.rs:47-79 | The in-place handler returns the step function's status. The new state is the step function's result, or the old state on failure. |
| Program.CountryLoan.ValidateDepositAccounts | programs/country_loan/src/instructions/deposit.rs:7-45 | Anchor's validation of the deposit accounts returns exactly the step function's validation verdict and changes nothing. |
| Program.CountryLoan.InitializeLoan | programs/country_loan/src/instructions/init_loan.rs:48-89 | The in-place handler returns the step function's status. The new state is the step function's result, or the old state on failure. |
| Transactions.InitUserPreservesConsistent | programs/country_loan/src/instructions/init_user.rs:21-23 | `init_user` keeps every user account owned by the wallet it is derived from, with the other invariants intact, and closes nothing. |
| Transactions.InitializeLoanPreservesConsistent | programs/country_loan/src/instructions/init_loan.rs:67-85 | A new loan is active and keyed by its own borrower and vault. Its borrower's account exists with the loan flag raised, and its vault is registered. |
| Transactions.RegisterTokenPreservesConsistent | programs/country_loan/src/instructions/register_token.rs:20-25 | A vault is only registered once a config exists, and the invariant is kept. |
| Transactions.DepositPreservesConsistent | programs/country_loan/src/instructions/deposit.rs:60-66 | A deposit keeps the invariant and closes nothing. The set of user accounts, the vaults, the loans and the config are unchanged, and no token account is created. |
| Transactions.ExecutePreservesConsistent | programs/country_loan/src/instructions/mod.rs:1-14 | Every instruction, successful or not, keeps the ledger invariant and closes no record. |
| Transactions.RunPreservesConsistent | programs/country_loan/src/instructions/mod.rs:1-14 | Every sequence of transactions keeps the invariant and closes no record (proved by induction). |
| Transactions.ReachableNeverUnauthorizedAccess | programs/country_loan/src/instructions/init_loan.rs:22 | From the first state, after any transactions, the loan's `owner == borrower` constraint never fails. |
| Transactions.DepositKeepsTokenAccountKeys | programs/country_loan/src/instructions/deposit.rs:51-58 | A deposit creates and closes no token account. |
| Transactions.DepositConservesSupply | programs/country_loan/src/instructions/deposit.rs:28-58 | A deposit, successful or not, leaves every mint's supply unchanged: the two accounts have the same mint, or are one account. |
| Transactions.ExecuteConservesSupply | programs/country_loan/src/instructions/deposit.rs:51-58 | No instruction changes any mint's total over all token accounts. |
| Transactions.RunConservesSupply | programs/country_loan/src/instructions/deposit.rs:51-58 | No sequence of transactions changes any mint's total (proved by induction). |
| Transactions.AnyoneBecomesAdmin | programs/country_loan/src/instructions/init_config.rs:7-32 | On any ledger, whoever sends `initialize_config` can register a vault right after, and the previous admin is refused with `Unauthorized`. |

## Left out

- `programs/country_loan/src/utils/pyth.rs` is not part of this model. Its decoding and staleness logic live in a library whose code is not available, and no handler calls it.
- The dispatch in `lib.rs` and the `mod.rs` re-exports are not modelled. All five handlers are modelled, although only two are wired into `#[program]`.
- SPL token internals and the CPI are not modelled. The transfer is modelled as a move between two entries of the token-account map; authority, delegation, frozen accounts and mint checks inside the token program are left out.
- PDA derivation, bumps, `payer`, `space`, rent and the system program are not modelled. Each record is keyed by the values its seeds are derived from, and the vault's address is the value `VaultPda(admin, mint)`.
- Signer checks are not modelled: every signer named by an argument is taken to have signed.
- The anchor discriminator and account-owner checks are not modelled, and neither are `ConstraintSeeds` failures for an address that does not match its seeds; the model always supplies the derived account.
- Anchor's duplicate-mutable-account check is not modelled. A deposit whose two token accounts are the same account is treated as the token program treats a self-transfer.
- `register_token`'s unchecked `vault_address` and `price_feed` accounts are not modelled; only the arguments of the same names are stored. The unchecked `token_mint` account enters only through its key, which is part of the vault record's key.
- `init_user` also assigns `total_collateral_usd`, `total_debt_usd` and `bump`, which `UserAccount` does not declare; only the declared fields are modelled.
- `msg!` logging in `deposit` is not modelled.
- Token.Transfer: two token accounts of one mint may hold amounts whose sum passes `u64::MAX`, so the destination overflow (`Overflow`) can occur in the model. The token program bounds a mint's supply by `u64::MAX`, so that branch, and the matching disjunct of `DepositInstruction.DepositSucceedsIff`, cannot occur in the program. The per-mint supply bound is not carried as an invariant.
- `Clock::get()` is the parameter `now`; its failure is not modelled.
- Program.CountryLoan: each account is held as a value and written back whole, as Anchor serialises a deserialised account on exit. The 8-slot `token_balances` is therefore a sequence of length 8 inside the user record, not a separately allocated array, and the model says nothing about aliasing between accounts.
- USD revaluation, borrowing limits, withdrawal, repayment, interest accrual and liquidation are not modelled, because no code implements them.

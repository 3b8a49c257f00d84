/**
 * `initalize_loan` (the program's own spelling): validates the request, writes the loan
 * record at the address derived from (borrower, vault), debits the collateral slot and
 * raises the user's active-loan flag. The loan account uses `init_if_needed`, so a
 * repeat request against the same vault overwrites the earlier record.
 */
module LoanInstruction {
  import opened Types
  import opened Errors
  import opened State

  /**
   * The instruction signed by `borrower` and `admin`, for the vault registered under
   * (`admin`, `tokenMint`), with `now` the cluster clock's `unix_timestamp`. Anchor loads
   * the user account, the vault and the config (each must exist) and checks the user
   * account's owner; the handler then runs its five checks in order. Collateral is only
   * compared in raw token units with the slot: no price, threshold or loan-to-value test.
   */
  function InitializeLoan(s: Ledger, borrower: Pubkey, admin: Pubkey, tokenMint: Pubkey,
                          loanAmount: U64, collateralAmount: U64, duration: U64,
                          tokenIndex: U8, now: I64): (r: Result<Ledger>)
  {
    if !AccountsLoaded(s, borrower, admin, tokenMint) then Err(AccountNotInitialized)
    else if s.users[borrower].owner != borrower then Err(Program(UnauthorizedAccess))
    else if loanAmount == 0 then Err(Program(InvalidAmount))
    else if collateralAmount == 0 then Err(Program(InvalidAmount))
    else if duration == 0 then Err(Program(InvalidDuration))
    else if tokenIndex >= TOKEN_SLOTS then Err(Program(InvalidTokenIndex))
    else if s.users[borrower].tokenBalances[tokenIndex] < collateralAmount then Err(Program(InsufficientCollateral))
    else
      var vault := VaultPda(admin, tokenMint);
      var loan := Loan(borrower, vault, loanAmount, collateralAmount,
                       s.config.value.interestRateBps, now, duration, true);
      var account := s.users[borrower];
      match CheckedSub(account.tokenBalances[tokenIndex], collateralAmount)
      case None => Err(Program(ArithmeticError))
      case Some(balance) =>
        Ok(s.(loans := s.loans[(borrower, vault) := loan],
              users := s.users[borrower := account.(tokenBalances := account.tokenBalances[tokenIndex := balance],
                                                    hasActiveLoan := true)]))
  }

  /** The user account, the vault record and the config exist. */
  predicate AccountsLoaded(s: Ledger, borrower: Pubkey, admin: Pubkey, tokenMint: Pubkey)
  {
    borrower in s.users && (admin, tokenMint) in s.vaults && s.config.Some?
  }

  /**
   * The checks in the order they run, each with its named error: the accounts must
   * exist, the user account must belong to the borrower, then the handler's five checks.
   */
  lemma InitializeLoanChecks(s: Ledger, borrower: Pubkey, admin: Pubkey, tokenMint: Pubkey,
                             loanAmount: U64, collateralAmount: U64, duration: U64,
                             tokenIndex: U8, now: I64)
    ensures var r := InitializeLoan(s, borrower, admin, tokenMint, loanAmount, collateralAmount, duration, tokenIndex, now);
            && (!AccountsLoaded(s, borrower, admin, tokenMint) ==> r == Err(AccountNotInitialized))
            && (AccountsLoaded(s, borrower, admin, tokenMint) ==>
                  && (s.users[borrower].owner != borrower ==> r == Err(Program(UnauthorizedAccess)))
                  && (s.users[borrower].owner == borrower ==>
                        && (loanAmount == 0 ==> r == Err(Program(InvalidAmount)))
                        && (loanAmount > 0 && collateralAmount == 0 ==> r == Err(Program(InvalidAmount)))
                        && (loanAmount > 0 && collateralAmount > 0 && duration == 0 ==>
                              r == Err(Program(InvalidDuration)))
                        && (loanAmount > 0 && collateralAmount > 0 && duration > 0 && tokenIndex >= TOKEN_SLOTS ==>
                              r == Err(Program(InvalidTokenIndex)))
                        && (loanAmount > 0 && collateralAmount > 0 && duration > 0 && tokenIndex < TOKEN_SLOTS
                            && s.users[borrower].tokenBalances[tokenIndex] < collateralAmount ==>
                              r == Err(Program(InsufficientCollateral)))))
  {
  }

  /**
   * A request succeeds exactly when every check passes; the `checked_sub` after the
   * sufficiency check can never fail, so `ArithmeticError` is never returned.
   */
  lemma InitializeLoanSucceedsIff(s: Ledger, borrower: Pubkey, admin: Pubkey, tokenMint: Pubkey,
                                  loanAmount: U64, collateralAmount: U64, duration: U64,
                                  tokenIndex: U8, now: I64)
    ensures var r := InitializeLoan(s, borrower, admin, tokenMint, loanAmount, collateralAmount, duration, tokenIndex, now);
            && r != Err(Program(ArithmeticError))
            && (r.Ok? <==>
                  && AccountsLoaded(s, borrower, admin, tokenMint)
                  && s.users[borrower].owner == borrower
                  && loanAmount > 0 && collateralAmount > 0 && duration > 0
                  && tokenIndex < TOKEN_SLOTS
                  && s.users[borrower].tokenBalances[tokenIndex] >= collateralAmount)
  {
  }

  /**
   * On success the loan record at (borrower, vault address) holds the request, the
   * config's rate and the clock time, and is active; no other loan changes.
   */
  lemma InitializeLoanRecords(s: Ledger, borrower: Pubkey, admin: Pubkey, tokenMint: Pubkey,
                              loanAmount: U64, collateralAmount: U64, duration: U64,
                              tokenIndex: U8, now: I64)
    requires InitializeLoan(s, borrower, admin, tokenMint, loanAmount, collateralAmount, duration, tokenIndex, now).Ok?
    ensures var s' := InitializeLoan(s, borrower, admin, tokenMint, loanAmount, collateralAmount, duration, tokenIndex, now).value;
            var vault := VaultPda(admin, tokenMint);
            && s'.loans.Keys == s.loans.Keys + {(borrower, vault)}
            && s'.loans[(borrower, vault)]
               == Loan(borrower, vault, loanAmount, collateralAmount, s.config.value.interestRateBps, now, duration, true)
            && (forall key | key in s.loans && key != (borrower, vault) :: s'.loans[key] == s.loans[key])
  {
  }

  /**
   * On success the collateral leaves the slot and is the amount recorded on the loan; the
   * flag is raised; the other slots, the owner, every other user, the config, the vaults
   * and the token accounts are as they were (no token moves).
   */
  lemma InitializeLoanDebits(s: Ledger, borrower: Pubkey, admin: Pubkey, tokenMint: Pubkey,
                             loanAmount: U64, collateralAmount: U64, duration: U64,
                             tokenIndex: U8, now: I64)
    requires InitializeLoan(s, borrower, admin, tokenMint, loanAmount, collateralAmount, duration, tokenIndex, now).Ok?
    ensures var s' := InitializeLoan(s, borrower, admin, tokenMint, loanAmount, collateralAmount, duration, tokenIndex, now).value;
            var vault := VaultPda(admin, tokenMint);
            && s'.users.Keys == s.users.Keys
            && s.users[borrower].tokenBalances[tokenIndex]
               == s'.users[borrower].tokenBalances[tokenIndex] + s'.loans[(borrower, vault)].collateralAmount
            && s'.users[borrower].hasActiveLoan
            && s'.users[borrower].owner == s.users[borrower].owner
            && (forall j | 0 <= j < TOKEN_SLOTS && j != tokenIndex ::
                  s'.users[borrower].tokenBalances[j] == s.users[borrower].tokenBalances[j])
            && (forall k | k in s.users && k != borrower :: s'.users[k] == s.users[k])
            && s'.config == s.config && s'.vaults == s.vaults && s'.tokenAccounts == s.tokenAccounts
  {
  }

  /**
   * Whether a request succeeds depends only on the user accounts and on which vaults and
   * config exist: not on any price feed, threshold, staleness bound or interest rate, nor
   * on the existing loans or the token balances.
   */
  lemma InitializeLoanIgnoresPrices(s: Ledger, t: Ledger, borrower: Pubkey, admin: Pubkey, tokenMint: Pubkey,
                                    loanAmount: U64, collateralAmount: U64, duration: U64,
                                    tokenIndex: U8, now: I64)
    requires s.users == t.users
    requires s.vaults.Keys == t.vaults.Keys
    requires s.config.Some? <==> t.config.Some?
    ensures InitializeLoan(s, borrower, admin, tokenMint, loanAmount, collateralAmount, duration, tokenIndex, now).Ok?
            <==> InitializeLoan(t, borrower, admin, tokenMint, loanAmount, collateralAmount, duration, tokenIndex, now).Ok?
  {
    InitializeLoanSucceedsIff(s, borrower, admin, tokenMint, loanAmount, collateralAmount, duration, tokenIndex, now);
    InitializeLoanSucceedsIff(t, borrower, admin, tokenMint, loanAmount, collateralAmount, duration, tokenIndex, now);
  }

  /**
   * A second request against the same vault succeeds while collateral remains, and the
   * loan record it writes replaces the first one: the earlier terms are lost, and of the
   * collateral taken from the slot twice only one amount is still recorded on a loan.
   */
  lemma InitializeLoanOverwrites(s: Ledger, borrower: Pubkey, admin: Pubkey, tokenMint: Pubkey,
                                 first: U64, second: U64, collateral: U64, duration: U64,
                                 tokenIndex: U8, now: I64, later: I64)
    requires InitializeLoan(s, borrower, admin, tokenMint, first, collateral, duration, tokenIndex, now).Ok?
    requires second > 0
    requires s.users[borrower].tokenBalances[tokenIndex] >= 2 * collateral
    ensures var once := InitializeLoan(s, borrower, admin, tokenMint, first, collateral, duration, tokenIndex, now).value;
            var twice := InitializeLoan(once, borrower, admin, tokenMint, second, collateral, duration, tokenIndex, later);
            && twice.Ok?
            && twice.value.loans[(borrower, VaultPda(admin, tokenMint))].loanAmount == second
            && twice.value.loans[(borrower, VaultPda(admin, tokenMint))].startTimestamp == later
            && twice.value.loans.Keys == once.loans.Keys
            && twice.value.loans[(borrower, VaultPda(admin, tokenMint))].collateralAmount == collateral
            && twice.value.users[borrower].tokenBalances[tokenIndex] + 2 * collateral
               == s.users[borrower].tokenBalances[tokenIndex]
  {
    InitializeLoanSucceedsIff(s, borrower, admin, tokenMint, first, collateral, duration, tokenIndex, now);
    var once := InitializeLoan(s, borrower, admin, tokenMint, first, collateral, duration, tokenIndex, now).value;
    InitializeLoanDebits(s, borrower, admin, tokenMint, first, collateral, duration, tokenIndex, now);
    InitializeLoanRecords(s, borrower, admin, tokenMint, first, collateral, duration, tokenIndex, now);
    InitializeLoanSucceedsIff(once, borrower, admin, tokenMint, second, collateral, duration, tokenIndex, later);
    InitializeLoanRecords(once, borrower, admin, tokenMint, second, collateral, duration, tokenIndex, later);
    InitializeLoanDebits(once, borrower, admin, tokenMint, second, collateral, duration, tokenIndex, later);
  }
}

/**
 * `deposit`: moves `amount` tokens from the user's token account to the vault's token
 * account and credits one balance slot of the user account with `checked_add`.
 */
module DepositInstruction {
  import opened Types
  import opened Errors
  import opened State
  import Token

  /**
   * The instruction signed by `user` and `admin`, for the vault registered under
   * (`admin`, `tokenMint`): Anchor validates the accounts, then the handler checks the
   * index, transfers, and credits the slot. Every failure discards the whole deposit.
   */
  function Deposit(s: Ledger, user: Pubkey, admin: Pubkey, tokenMint: Pubkey,
                   userTokenAccount: Pubkey, vaultTokenAccount: Pubkey,
                   amount: U64, tokenIndex: U8): (r: Result<Ledger>)
  {
    match ValidateAccounts(s, user, admin, tokenMint, userTokenAccount, vaultTokenAccount)
    case Err(e) => Err(e)
    case Ok(_) =>
      if tokenIndex >= TOKEN_SLOTS then Err(Program(InvalidTokenMint))
      else
        match Token.Transfer(s.tokenAccounts, userTokenAccount, vaultTokenAccount, amount)
        case Err(e) => Err(e)
        case Ok(moved) =>
          var account := s.users[user];
          match CheckedAdd(account.tokenBalances[tokenIndex], amount)
          case None => Err(Program(InvalidTokenMint))
          case Some(balance) =>
            Ok(s.(tokenAccounts := moved,
                  users := s.users[user := account.(tokenBalances := account.tokenBalances[tokenIndex := balance])]))
  }

  /**
   * Anchor's validation of the `Deposit` accounts struct, before the handler runs: the
   * four accounts must exist, then the four `constraint = ...` clauses are checked in
   * declaration order.
   */
  function ValidateAccounts(s: Ledger, user: Pubkey, admin: Pubkey, tokenMint: Pubkey,
                            userTokenAccount: Pubkey, vaultTokenAccount: Pubkey): (r: Result<()>)
  {
    if !AccountsLoaded(s, user, admin, tokenMint, userTokenAccount, vaultTokenAccount) then
      Err(AccountNotInitialized)
    else
      var from := s.tokenAccounts[userTokenAccount];
      var to := s.tokenAccounts[vaultTokenAccount];
      if from.mint != tokenMint then Err(Program(InvalidTokenMint))
      else if from.owner != user then Err(Program(InvalidTokenOwner))
      else if to.mint != tokenMint then Err(Program(InvalidTokenMint))
      else if vaultTokenAccount != s.vaults[(admin, tokenMint)].vaultAddress then Err(Program(InvalidVaultAddress))
      else Ok(())
  }

  /** The user account, the vault record and both token accounts exist. */
  predicate AccountsLoaded(s: Ledger, user: Pubkey, admin: Pubkey, tokenMint: Pubkey,
                           userTokenAccount: Pubkey, vaultTokenAccount: Pubkey)
  {
    && user in s.users
    && (admin, tokenMint) in s.vaults
    && userTokenAccount in s.tokenAccounts
    && vaultTokenAccount in s.tokenAccounts
  }

  /** The four `constraint = ...` clauses of the `Deposit` accounts struct. */
  predicate ConstraintsHold(s: Ledger, user: Pubkey, admin: Pubkey, tokenMint: Pubkey,
                            userTokenAccount: Pubkey, vaultTokenAccount: Pubkey)
  {
    && AccountsLoaded(s, user, admin, tokenMint, userTokenAccount, vaultTokenAccount)
    && s.tokenAccounts[userTokenAccount].mint == tokenMint
    && s.tokenAccounts[userTokenAccount].owner == user
    && s.tokenAccounts[vaultTokenAccount].mint == tokenMint
    && vaultTokenAccount == s.vaults[(admin, tokenMint)].vaultAddress
  }

  /**
   * The checks in the order they run, each with its named error: the constraints on the
   * two token accounts, then the index bound (reported as `InvalidTokenMint`), the
   * transfer, and the overflow of the slot (also reported as `InvalidTokenMint`).
   */
  lemma DepositChecks(s: Ledger, user: Pubkey, admin: Pubkey, tokenMint: Pubkey,
                      userTokenAccount: Pubkey, vaultTokenAccount: Pubkey, amount: U64, tokenIndex: U8)
    ensures var r := Deposit(s, user, admin, tokenMint, userTokenAccount, vaultTokenAccount, amount, tokenIndex);
            && (!AccountsLoaded(s, user, admin, tokenMint, userTokenAccount, vaultTokenAccount) ==>
                  r == Err(AccountNotInitialized))
            && (AccountsLoaded(s, user, admin, tokenMint, userTokenAccount, vaultTokenAccount) ==>
                  var from := s.tokenAccounts[userTokenAccount];
                  var to := s.tokenAccounts[vaultTokenAccount];
                  && (from.mint != tokenMint ==> r == Err(Program(InvalidTokenMint)))
                  && (from.mint == tokenMint && from.owner != user ==> r == Err(Program(InvalidTokenOwner)))
                  && (from.mint == tokenMint && from.owner == user && to.mint != tokenMint ==>
                        r == Err(Program(InvalidTokenMint)))
                  && (from.mint == tokenMint && from.owner == user && to.mint == tokenMint
                      && vaultTokenAccount != s.vaults[(admin, tokenMint)].vaultAddress ==>
                        r == Err(Program(InvalidVaultAddress))))
            && (ConstraintsHold(s, user, admin, tokenMint, userTokenAccount, vaultTokenAccount) ==>
                  var moved := Token.Transfer(s.tokenAccounts, userTokenAccount, vaultTokenAccount, amount);
                  && (tokenIndex >= TOKEN_SLOTS ==> r == Err(Program(InvalidTokenMint)))
                  && (tokenIndex < TOKEN_SLOTS && moved.Err? ==> r == Err(moved.error))
                  && (tokenIndex < TOKEN_SLOTS && moved.Ok?
                      && s.users[user].tokenBalances[tokenIndex] + amount > U64_MAX ==>
                        r == Err(Program(InvalidTokenMint))))
  {
  }

  /** A deposit succeeds exactly when no check above fails. */
  lemma DepositSucceedsIff(s: Ledger, user: Pubkey, admin: Pubkey, tokenMint: Pubkey,
                           userTokenAccount: Pubkey, vaultTokenAccount: Pubkey, amount: U64, tokenIndex: U8)
    ensures Deposit(s, user, admin, tokenMint, userTokenAccount, vaultTokenAccount, amount, tokenIndex).Ok?
            <==>
            && ConstraintsHold(s, user, admin, tokenMint, userTokenAccount, vaultTokenAccount)
            && tokenIndex < TOKEN_SLOTS
            && s.tokenAccounts[userTokenAccount].amount >= amount
            && (userTokenAccount == vaultTokenAccount
                || s.tokenAccounts[vaultTokenAccount].amount + amount <= U64_MAX)
            && s.users[user].tokenBalances[tokenIndex] + amount <= U64_MAX
  {
  }

  /**
   * On success slot `tokenIndex` grows by exactly `amount`; the other seven slots, the
   * owner, the loan flag, every other user, the config, the vaults and the loans are as
   * they were.
   */
  lemma DepositCredits(s: Ledger, user: Pubkey, admin: Pubkey, tokenMint: Pubkey,
                       userTokenAccount: Pubkey, vaultTokenAccount: Pubkey, amount: U64, tokenIndex: U8)
    requires Deposit(s, user, admin, tokenMint, userTokenAccount, vaultTokenAccount, amount, tokenIndex).Ok?
    ensures var s' := Deposit(s, user, admin, tokenMint, userTokenAccount, vaultTokenAccount, amount, tokenIndex).value;
            && s'.users.Keys == s.users.Keys
            && s'.users[user].tokenBalances[tokenIndex] == s.users[user].tokenBalances[tokenIndex] + amount
            && (forall j | 0 <= j < TOKEN_SLOTS && j != tokenIndex ::
                  s'.users[user].tokenBalances[j] == s.users[user].tokenBalances[j])
            && s'.users[user].owner == s.users[user].owner
            && s'.users[user].hasActiveLoan == s.users[user].hasActiveLoan
            && (forall k | k in s.users && k != user :: s'.users[k] == s.users[k])
            && s'.config == s.config && s'.vaults == s.vaults && s'.loans == s.loans
  {
  }

  /**
   * On success the user's token account loses `amount` and the vault's gains `amount`
   * (no other token account changes), so the supply of every mint is what it was.
   */
  lemma DepositMovesTokens(s: Ledger, user: Pubkey, admin: Pubkey, tokenMint: Pubkey,
                           userTokenAccount: Pubkey, vaultTokenAccount: Pubkey, amount: U64, tokenIndex: U8,
                           mint: Pubkey)
    requires Deposit(s, user, admin, tokenMint, userTokenAccount, vaultTokenAccount, amount, tokenIndex).Ok?
    requires userTokenAccount != vaultTokenAccount
    ensures var s' := Deposit(s, user, admin, tokenMint, userTokenAccount, vaultTokenAccount, amount, tokenIndex).value;
            && s'.tokenAccounts.Keys == s.tokenAccounts.Keys
            && s'.tokenAccounts[userTokenAccount].amount == s.tokenAccounts[userTokenAccount].amount - amount
            && s'.tokenAccounts[vaultTokenAccount].amount == s.tokenAccounts[vaultTokenAccount].amount + amount
            && (forall k | k in s.tokenAccounts && k != userTokenAccount && k != vaultTokenAccount ::
                  s'.tokenAccounts[k] == s.tokenAccounts[k])
            && Token.Supply(s'.tokenAccounts, mint) == Token.Supply(s.tokenAccounts, mint)
  {
    Token.TransferConservesSupply(s.tokenAccounts, userTokenAccount, vaultTokenAccount, amount, mint);
  }

  /**
   * When the registered vault address is the user's own token account, the transfer moves
   * nothing, yet the slot is still credited: the ledger then records tokens that no
   * vault received.
   */
  lemma DepositSelfTransfer(s: Ledger, user: Pubkey, admin: Pubkey, tokenMint: Pubkey,
                            account: Pubkey, amount: U64, tokenIndex: U8)
    requires Deposit(s, user, admin, tokenMint, account, account, amount, tokenIndex).Ok?
    ensures var s' := Deposit(s, user, admin, tokenMint, account, account, amount, tokenIndex).value;
            && s'.tokenAccounts == s.tokenAccounts
            && s'.users[user].tokenBalances[tokenIndex] == s.users[user].tokenBalances[tokenIndex] + amount
  {
  }

  /** A zero amount is not rejected: when every constraint holds it succeeds and changes nothing. */
  lemma DepositZeroAmount(s: Ledger, user: Pubkey, admin: Pubkey, tokenMint: Pubkey,
                          userTokenAccount: Pubkey, vaultTokenAccount: Pubkey, tokenIndex: U8)
    requires ConstraintsHold(s, user, admin, tokenMint, userTokenAccount, vaultTokenAccount)
    requires tokenIndex < TOKEN_SLOTS
    ensures Deposit(s, user, admin, tokenMint, userTokenAccount, vaultTokenAccount, 0, tokenIndex) == Ok(s)
  {
    var moved := Token.Transfer(s.tokenAccounts, userTokenAccount, vaultTokenAccount, 0);
    assert moved.Ok?;
    assert forall k | k in s.tokenAccounts :: moved.value[k] == s.tokenAccounts[k];
    assert moved.value == s.tokenAccounts;
    var account := s.users[user];
    assert account.tokenBalances[tokenIndex := account.tokenBalances[tokenIndex]] == account.tokenBalances;
    assert s.users[user := account] == s.users;
  }
}

/**
 * Sequences of transactions, each carrying one instruction: what holds of every ledger
 * the program can reach from its first state, and what no sequence of transactions can
 * change.
 */
module Transactions {
  import opened Types
  import opened Errors
  import opened State
  import ConfigInstruction
  import UserInstruction
  import VaultInstruction
  import DepositInstruction
  import LoanInstruction
  import Token

  /** One instruction of the program with its arguments and signers. */
  datatype Instruction =
    | InitializeConfig(admin: Pubkey, interestRateBps: U64, liquidationThresholdBps: U64, priceStaleThreshold: U64)
    | InitUser(user: Pubkey)
    | RegisterToken(admin: Pubkey, mintAccount: Pubkey, vaultAddress: Pubkey, tokenMint: Pubkey, priceFeed: Pubkey)
    | Deposit(user: Pubkey, admin: Pubkey, tokenMint: Pubkey, userTokenAccount: Pubkey,
              vaultTokenAccount: Pubkey, amount: U64, tokenIndex: U8)
    | InitializeLoan(borrower: Pubkey, admin: Pubkey, tokenMint: Pubkey, loanAmount: U64,
                     collateralAmount: U64, duration: U64, tokenIndex: U8, now: I64)

  /** The outcome of one transaction. */
  function Execute(s: Ledger, i: Instruction): (r: Result<Ledger>)
  {
    match i
    case InitializeConfig(admin, rate, threshold, staleness) =>
      ConfigInstruction.InitializeConfig(s, admin, rate, threshold, staleness)
    case InitUser(user) =>
      UserInstruction.InitUser(s, user)
    case RegisterToken(admin, mintAccount, vaultAddress, tokenMint, priceFeed) =>
      VaultInstruction.RegisterToken(s, admin, mintAccount, vaultAddress, tokenMint, priceFeed)
    case Deposit(user, admin, tokenMint, from, to, amount, index) =>
      DepositInstruction.Deposit(s, user, admin, tokenMint, from, to, amount, index)
    case InitializeLoan(borrower, admin, tokenMint, loanAmount, collateral, duration, index, now) =>
      LoanInstruction.InitializeLoan(s, borrower, admin, tokenMint, loanAmount, collateral, duration, index, now)
  }

  /** The ledger after the transactions in order; a failed one leaves the ledger as it was. */
  function Run(s: Ledger, txs: seq<Instruction>): (s': Ledger)
    decreases |txs|
  {
    if |txs| == 0 then s else Run(Commit(s, Execute(s, txs[0])), txs[1..])
  }

  /**
   * What every reachable ledger satisfies: each user account is owned by the wallet it
   * is derived from; each loan is active, names the borrower and vault it is keyed by,
   * belongs to an existing user whose loan flag is raised, and was taken against a
   * registered vault; and vaults exist only once a config does.
   */
  ghost predicate Consistent(s: Ledger)
  {
    && (forall k | k in s.users :: s.users[k].owner == k)
    && (forall key | key in s.loans ::
          && key.0 in s.users && s.users[key.0].hasActiveLoan
          && s.loans[key].borrower == key.0 && s.loans[key].collateralVault == key.1
          && s.loans[key].isActive
          && key.1.VaultPda? && (key.1.admin, key.1.mint) in s.vaults)
    && (|s.vaults| > 0 ==> s.config.Some?)
  }

  /** Records are never closed: every record that exists still exists afterwards. */
  ghost predicate Grows(s: Ledger, s': Ledger)
  {
    && s.users.Keys <= s'.users.Keys
    && s.vaults.Keys <= s'.vaults.Keys
    && s.loans.Keys <= s'.loans.Keys
    && (s.config.Some? ==> s'.config.Some?)
    && s'.tokenAccounts.Keys == s.tokenAccounts.Keys
  }

  lemma GenesisConsistent(tokenAccounts: map<Pubkey, TokenAccount>)
    ensures Consistent(Genesis(tokenAccounts))
  {
  }

  /** Every instruction, successful or not, keeps the ledger consistent and closes nothing. */
  lemma ExecutePreservesConsistent(s: Ledger, i: Instruction)
    requires Consistent(s)
    ensures Consistent(Commit(s, Execute(s, i)))
    ensures Grows(s, Commit(s, Execute(s, i)))
  {
    match i
    case InitializeConfig(admin, rate, threshold, staleness) =>
      ConfigInstruction.InitializeConfigWrites(s, admin, rate, threshold, staleness);
    case InitUser(user) =>
      InitUserPreservesConsistent(s, user);
    case RegisterToken(admin, mintAccount, vaultAddress, tokenMint, priceFeed) =>
      RegisterTokenPreservesConsistent(s, admin, mintAccount, vaultAddress, tokenMint, priceFeed);
    case Deposit(user, admin, tokenMint, from, to, amount, index) =>
      DepositPreservesConsistent(s, user, admin, tokenMint, from, to, amount, index);
    case InitializeLoan(borrower, admin, tokenMint, loanAmount, collateral, duration, index, now) =>
      InitializeLoanPreservesConsistent(s, borrower, admin, tokenMint, loanAmount, collateral, duration, index, now);
  }

  /** Writing `owner := user` is what makes every user account owned by its own wallet. */
  lemma InitUserPreservesConsistent(s: Ledger, user: Pubkey)
    requires Consistent(s)
    ensures var s' := Commit(s, UserInstruction.InitUser(s, user));
            Consistent(s') && Grows(s, s')
  {
    UserInstruction.InitUserWrites(s, user);
  }

  lemma RegisterTokenPreservesConsistent(s: Ledger, admin: Pubkey, mintAccount: Pubkey,
                                         vaultAddress: Pubkey, tokenMint: Pubkey, priceFeed: Pubkey)
    requires Consistent(s)
    ensures var s' := Commit(s, VaultInstruction.RegisterToken(s, admin, mintAccount, vaultAddress, tokenMint, priceFeed));
            Consistent(s') && Grows(s, s')
  {
    VaultInstruction.RegisterTokenChecks(s, admin, mintAccount, vaultAddress, tokenMint, priceFeed);
    if s.config.Some? && s.config.value.admin == admin {
      VaultInstruction.RegisterTokenWrites(s, admin, mintAccount, vaultAddress, tokenMint, priceFeed);
    }
  }

  lemma DepositPreservesConsistent(s: Ledger, user: Pubkey, admin: Pubkey, tokenMint: Pubkey,
                                   from: Pubkey, to: Pubkey, amount: U64, index: U8)
    requires Consistent(s)
    ensures var s' := Commit(s, DepositInstruction.Deposit(s, user, admin, tokenMint, from, to, amount, index));
            && Consistent(s') && Grows(s, s')
            && s'.users.Keys == s.users.Keys && s'.vaults == s.vaults
            && s'.loans == s.loans && s'.config == s.config
  {
    if DepositInstruction.Deposit(s, user, admin, tokenMint, from, to, amount, index).Ok? {
      DepositInstruction.DepositCredits(s, user, admin, tokenMint, from, to, amount, index);
      DepositKeepsTokenAccountKeys(s, user, admin, tokenMint, from, to, amount, index);
    }
  }

  /** The new loan is keyed by its own borrower and vault, whose records both exist. */
  lemma InitializeLoanPreservesConsistent(s: Ledger, borrower: Pubkey, admin: Pubkey, tokenMint: Pubkey,
                                          loanAmount: U64, collateral: U64, duration: U64, index: U8, now: I64)
    requires Consistent(s)
    ensures var s' := Commit(s, LoanInstruction.InitializeLoan(s, borrower, admin, tokenMint, loanAmount,
                                                               collateral, duration, index, now));
            Consistent(s') && Grows(s, s')
  {
    if LoanInstruction.InitializeLoan(s, borrower, admin, tokenMint, loanAmount, collateral, duration, index, now).Ok? {
      LoanInstruction.InitializeLoanSucceedsIff(s, borrower, admin, tokenMint, loanAmount, collateral, duration, index, now);
      LoanInstruction.InitializeLoanRecords(s, borrower, admin, tokenMint, loanAmount, collateral, duration, index, now);
      LoanInstruction.InitializeLoanDebits(s, borrower, admin, tokenMint, loanAmount, collateral, duration, index, now);
    }
  }

  /** A deposit never creates or closes a token account. */
  lemma DepositKeepsTokenAccountKeys(s: Ledger, user: Pubkey, admin: Pubkey, tokenMint: Pubkey,
                                     from: Pubkey, to: Pubkey, amount: U64, index: U8)
    requires DepositInstruction.Deposit(s, user, admin, tokenMint, from, to, amount, index).Ok?
    ensures DepositInstruction.Deposit(s, user, admin, tokenMint, from, to, amount, index).value.tokenAccounts.Keys
            == s.tokenAccounts.Keys
  {
    if from == to {
      DepositInstruction.DepositSelfTransfer(s, user, admin, tokenMint, from, amount, index);
    } else {
      DepositInstruction.DepositMovesTokens(s, user, admin, tokenMint, from, to, amount, index, tokenMint);
    }
  }

  /** Any sequence of transactions keeps the ledger consistent and closes nothing. */
  lemma {:induction false} RunPreservesConsistent(s: Ledger, txs: seq<Instruction>)
    requires Consistent(s)
    ensures Consistent(Run(s, txs))
    ensures Grows(s, Run(s, txs))
    decreases |txs|
  {
    if |txs| > 0 {
      var next := Commit(s, Execute(s, txs[0]));
      ExecutePreservesConsistent(s, txs[0]);
      RunPreservesConsistent(next, txs[1..]);
    }
  }

  /**
   * The `owner == borrower` constraint on the loan's user account can never fail: every
   * user account reachable from the first state belongs to the wallet it is derived from.
   */
  lemma ReachableNeverUnauthorizedAccess(tokenAccounts: map<Pubkey, TokenAccount>, txs: seq<Instruction>,
                                         borrower: Pubkey, admin: Pubkey, tokenMint: Pubkey,
                                         loanAmount: U64, collateralAmount: U64, duration: U64,
                                         tokenIndex: U8, now: I64)
    ensures var s := Run(Genesis(tokenAccounts), txs);
            LoanInstruction.InitializeLoan(s, borrower, admin, tokenMint, loanAmount, collateralAmount,
                                           duration, tokenIndex, now) != Err(Program(UnauthorizedAccess))
  {
    GenesisConsistent(tokenAccounts);
    RunPreservesConsistent(Genesis(tokenAccounts), txs);
  }

  /** No instruction changes the total amount of any mint held by the token accounts. */
  lemma ExecuteConservesSupply(s: Ledger, i: Instruction, mint: Pubkey)
    ensures Token.Supply(Commit(s, Execute(s, i)).tokenAccounts, mint) == Token.Supply(s.tokenAccounts, mint)
  {
    if i.Deposit? {
      DepositConservesSupply(s, i.user, i.admin, i.tokenMint, i.userTokenAccount, i.vaultTokenAccount,
                             i.amount, i.tokenIndex, mint);
    }
  }

  /** A deposit moves tokens between two accounts of the same mint, or moves nothing. */
  lemma DepositConservesSupply(s: Ledger, user: Pubkey, admin: Pubkey, tokenMint: Pubkey,
                               from: Pubkey, to: Pubkey, amount: U64, index: U8, mint: Pubkey)
    ensures var s' := Commit(s, DepositInstruction.Deposit(s, user, admin, tokenMint, from, to, amount, index));
            Token.Supply(s'.tokenAccounts, mint) == Token.Supply(s.tokenAccounts, mint)
  {
    if DepositInstruction.Deposit(s, user, admin, tokenMint, from, to, amount, index).Ok? {
      if from == to {
        DepositInstruction.DepositSelfTransfer(s, user, admin, tokenMint, from, amount, index);
      } else {
        DepositInstruction.DepositMovesTokens(s, user, admin, tokenMint, from, to, amount, index, mint);
      }
    }
  }

  /** No sequence of transactions changes the total amount of any mint. */
  lemma {:induction false} RunConservesSupply(s: Ledger, txs: seq<Instruction>, mint: Pubkey)
    ensures Token.Supply(Run(s, txs).tokenAccounts, mint) == Token.Supply(s.tokenAccounts, mint)
    decreases |txs|
  {
    if |txs| > 0 {
      ExecuteConservesSupply(s, txs[0], mint);
      RunConservesSupply(Commit(s, Execute(s, txs[0])), txs[1..], mint);
    }
  }

  /**
   * Whoever sends `initialize_config` becomes the admin, on any ledger: right after it,
   * that signer's `register_token` succeeds, and the previous admin's is refused.
   */
  lemma AnyoneBecomesAdmin(s: Ledger, signer: Pubkey, previous: Pubkey,
                           rate: U64, threshold: U64, staleness: U64,
                           mintAccount: Pubkey, vaultAddress: Pubkey, tokenMint: Pubkey, priceFeed: Pubkey)
    requires previous != signer
    ensures var s' := Run(s, [InitializeConfig(signer, rate, threshold, staleness)]);
            && Execute(s', RegisterToken(signer, mintAccount, vaultAddress, tokenMint, priceFeed)).Ok?
            && Execute(s', RegisterToken(previous, mintAccount, vaultAddress, tokenMint, priceFeed))
               == Err(Program(Unauthorized))
  {
    var s' := Run(s, [InitializeConfig(signer, rate, threshold, staleness)]);
    assert [InitializeConfig(signer, rate, threshold, staleness)][1..] == [];
    ConfigInstruction.InitializeConfigWrites(s, signer, rate, threshold, staleness);
    VaultInstruction.RegisterTokenChecks(s', signer, mintAccount, vaultAddress, tokenMint, priceFeed);
    VaultInstruction.RegisterTokenChecks(s', previous, mintAccount, vaultAddress, tokenMint, priceFeed);
  }
}

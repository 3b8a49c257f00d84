/**
 * The lending program's accounts as mutable state, and its five instruction handlers as
 * methods that update that state in place. Each method performs its writes only once
 * every check has passed, which has the effect of the runtime discarding the writes of a
 * failed transaction; each is proved to agree with the step function of its instruction.
 */
module Program {
  import opened Types
  import opened Errors
  import opened State
  import ConfigInstruction
  import UserInstruction
  import VaultInstruction
  import DepositInstruction
  import LoanInstruction
  import Token

  /**
   * Every account the program reads or writes, keyed as in `State.Ledger`. Anchor
   * deserialises each account into a local copy and serialises it back when the handler
   * returns, so an account is held here as a value and a handler writes it back whole.
   */
  class CountryLoan {
    var config: Option<ProtocolConfig>
    var users: map<Pubkey, UserRecord>
    var vaults: map<(Pubkey, Pubkey), CollateralVault>
    var loans: map<(Pubkey, Pubkey), Loan>
    var tokenAccounts: map<Pubkey, TokenAccount>

    /** The value of the whole state. */
    function View(): (s: Ledger)
      reads this
    {
      Ledger(config, users, vaults, loans, tokenAccounts)
    }

    /** The program's state before any instruction has run; token accounts exist already. */
    constructor (tokenAccounts: map<Pubkey, TokenAccount>)
      ensures View() == Genesis(tokenAccounts)
    {
      config := None;
      users := map[];
      vaults := map[];
      loans := map[];
      this.tokenAccounts := tokenAccounts;
    }

    method InitializeConfig(admin: Pubkey, interestRateBps: U64,
                            liquidationThresholdBps: U64, priceStaleThreshold: U64)
      returns (res: Result<()>)
      modifies this
      ensures res == Status(ConfigInstruction.InitializeConfig(
                              old(View()), admin, interestRateBps, liquidationThresholdBps, priceStaleThreshold))
      ensures View() == Commit(old(View()), ConfigInstruction.InitializeConfig(
                                 old(View()), admin, interestRateBps, liquidationThresholdBps, priceStaleThreshold))
    {
      // all four fields are written, so the record is replaced whole
      config := Some(ProtocolConfig(interestRateBps, liquidationThresholdBps, priceStaleThreshold, admin));
      res := Ok(());
    }

    method InitUser(user: Pubkey) returns (res: Result<()>)
      modifies this
      ensures res == Status(UserInstruction.InitUser(old(View()), user))
      ensures View() == Commit(old(View()), UserInstruction.InitUser(old(View()), user))
    {
      var account := ZERO_USER;
      if user in users {
        account := users[user];
      }
      account := account.(owner := user);
      users := users[user := account];
      res := Ok(());
    }

    method RegisterToken(admin: Pubkey, mintAccount: Pubkey,
                         vaultAddress: Pubkey, tokenMint: Pubkey, priceFeed: Pubkey)
      returns (res: Result<()>)
      modifies this
      ensures res == Status(VaultInstruction.RegisterToken(
                              old(View()), admin, mintAccount, vaultAddress, tokenMint, priceFeed))
      ensures View() == Commit(old(View()), VaultInstruction.RegisterToken(
                                 old(View()), admin, mintAccount, vaultAddress, tokenMint, priceFeed))
    {
      if config.None? {
        return Err(AccountNotInitialized);
      }
      if config.value.admin != admin {
        return Err(Program(Unauthorized));
      }
      vaults := vaults[(admin, mintAccount) := CollateralVault(vaultAddress, tokenMint, priceFeed)];
      res := Ok(());
    }

    method Deposit(user: Pubkey, admin: Pubkey, tokenMint: Pubkey,
                   userTokenAccount: Pubkey, vaultTokenAccount: Pubkey, amount: U64, tokenIndex: U8)
      returns (res: Result<()>)
      modifies this
      ensures res == Status(DepositInstruction.Deposit(
                              old(View()), user, admin, tokenMint, userTokenAccount, vaultTokenAccount, amount, tokenIndex))
      ensures View() == Commit(old(View()), DepositInstruction.Deposit(
                                 old(View()), user, admin, tokenMint, userTokenAccount, vaultTokenAccount, amount, tokenIndex))
    {
      res := ValidateDepositAccounts(user, admin, tokenMint, userTokenAccount, vaultTokenAccount);
      if res.Err? {
        return;
      }
      if tokenIndex >= TOKEN_SLOTS {
        return Err(Program(InvalidTokenMint));
      }
      var moved := Token.Transfer(tokenAccounts, userTokenAccount, vaultTokenAccount, amount);
      if moved.Err? {
        return Err(moved.error);
      }
      var account := users[user];
      var balance := account.tokenBalances[tokenIndex];
      if balance + amount > U64_MAX {
        return Err(Program(InvalidTokenMint));
      }
      tokenAccounts := moved.value;
      users := users[user := account.(tokenBalances := account.tokenBalances[tokenIndex := balance + amount])];
    }

    /** Anchor's checks of the `Deposit` accounts; reads the state and changes nothing. */
    method ValidateDepositAccounts(user: Pubkey, admin: Pubkey, tokenMint: Pubkey,
                                   userTokenAccount: Pubkey, vaultTokenAccount: Pubkey)
      returns (res: Result<()>)
      ensures res == DepositInstruction.ValidateAccounts(View(), user, admin, tokenMint, userTokenAccount, vaultTokenAccount)
    {
      if user !in users || (admin, tokenMint) !in vaults
         || userTokenAccount !in tokenAccounts || vaultTokenAccount !in tokenAccounts {
        return Err(AccountNotInitialized);
      }
      var from := tokenAccounts[userTokenAccount];
      var to := tokenAccounts[vaultTokenAccount];
      if from.mint != tokenMint {
        return Err(Program(InvalidTokenMint));
      }
      if from.owner != user {
        return Err(Program(InvalidTokenOwner));
      }
      if to.mint != tokenMint {
        return Err(Program(InvalidTokenMint));
      }
      if vaultTokenAccount != vaults[(admin, tokenMint)].vaultAddress {
        return Err(Program(InvalidVaultAddress));
      }
      res := Ok(());
    }

    method InitializeLoan(borrower: Pubkey, admin: Pubkey, tokenMint: Pubkey,
                          loanAmount: U64, collateralAmount: U64, duration: U64, tokenIndex: U8, now: I64)
      returns (res: Result<()>)
      modifies this
      ensures res == Status(LoanInstruction.InitializeLoan(
                              old(View()), borrower, admin, tokenMint, loanAmount, collateralAmount, duration, tokenIndex, now))
      ensures View() == Commit(old(View()), LoanInstruction.InitializeLoan(
                                 old(View()), borrower, admin, tokenMint, loanAmount, collateralAmount, duration, tokenIndex, now))
    {
      if borrower !in users || (admin, tokenMint) !in vaults || config.None? {
        return Err(AccountNotInitialized);
      }
      var account := users[borrower];
      if account.owner != borrower {
        return Err(Program(UnauthorizedAccess));
      }
      if loanAmount == 0 {
        return Err(Program(InvalidAmount));
      }
      if collateralAmount == 0 {
        return Err(Program(InvalidAmount));
      }
      if duration == 0 {
        return Err(Program(InvalidDuration));
      }
      if tokenIndex >= TOKEN_SLOTS {
        return Err(Program(InvalidTokenIndex));
      }
      if account.tokenBalances[tokenIndex] < collateralAmount {
        return Err(Program(InsufficientCollateral));
      }
      var vault := VaultPda(admin, tokenMint);
      loans := loans[(borrower, vault) := Loan(borrower, vault, loanAmount, collateralAmount,
                                               config.value.interestRateBps, now, duration, true)];
      account := account.(tokenBalances := account.tokenBalances[tokenIndex := account.tokenBalances[tokenIndex] - collateralAmount]);
      account := account.(hasActiveLoan := true);
      users := users[borrower := account];
      res := Ok(());
    }
  }
}

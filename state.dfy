/**
 * The account layouts of the lending program, as values, and the value of the whole
 * ledger that the instructions act on.
 */
module State {
  import opened Types
  import opened Errors

  /** The singleton account at the address derived from the seed `"config"`. */
  datatype ProtocolConfig = ProtocolConfig(
    interestRateBps: U64,          // `intrest_rate_bps` in the Rust struct
    liquidationThresholdBps: U64,
    priceStaleThreshold: U64,
    admin: Pubkey)

  /** One registered collateral token; its address is derived from `["vault", admin, mint]`. */
  datatype CollateralVault = CollateralVault(
    vaultAddress: Pubkey,
    tokenMint: Pubkey,
    priceFeed: Pubkey)

  /** A loan record; its address is derived from `["loan", borrower, collateral_vault]`. */
  datatype Loan = Loan(
    borrower: Pubkey,
    collateralVault: Pubkey,
    loanAmount: U64,
    collateralAmount: U64,
    interestRateBps: U64,
    startTimestamp: I64,
    duration: U64,
    isActive: bool)

  /**
   * The value of a user account; its address is derived from `["user", owner wallet]`.
   * Only the three declared fields exist: the handler `init_user` also assigns
   * `total_collateral_usd`, `total_debt_usd` and `bump`, which the struct does not declare.
   */
  datatype UserRecord = UserRecord(
    owner: Pubkey,
    tokenBalances: Slots,
    hasActiveLoan: bool)

  /** A zero-filled user account, as Anchor allocates it before the handler runs. */
  const ZERO_USER: UserRecord := UserRecord(DEFAULT_PUBKEY, ZERO_SLOTS, false)

  /** The fields of an SPL token account that the program reads or moves. */
  datatype TokenAccount = TokenAccount(mint: Pubkey, owner: Pubkey, amount: U64)

  /**
   * Every account the program touches, keyed by the seeds its address is derived from:
   * users by wallet, vaults by (admin, mint account), loans by (borrower, vault address).
   * Token accounts belong to the SPL token program and are keyed by their own address.
   */
  datatype Ledger = Ledger(
    config: Option<ProtocolConfig>,
    users: map<Pubkey, UserRecord>,
    vaults: map<(Pubkey, Pubkey), CollateralVault>,
    loans: map<(Pubkey, Pubkey), Loan>,
    tokenAccounts: map<Pubkey, TokenAccount>)

  /** The ledger before any instruction of this program has run. */
  function Genesis(tokenAccounts: map<Pubkey, TokenAccount>): (s: Ledger)
  {
    Ledger(None, map[], map[], map[], tokenAccounts)
  }

  /**
   * The ledger after a transaction: its new state when it succeeded, and the old one
   * unchanged when it failed (a failed transaction's writes are all discarded).
   */
  function Commit(s: Ledger, r: Result<Ledger>): (next: Ledger)
  {
    if r.Ok? then r.value else s
  }

  /** What the instruction handler returns: `Ok(())` or its error. */
  function Status(r: Result<Ledger>): (status: Result<()>)
  {
    if r.Ok? then Ok(()) else Err(r.error)
  }
}

/**
 * `initialize_config`: writes the singleton protocol configuration. The account uses
 * `init_if_needed`, so a repeat call by anyone rewrites every field, `admin` included.
 */
module ConfigInstruction {
  import opened Types
  import opened Errors
  import opened State

  /** The instruction signed by `admin`; the config holds a single record by construction. */
  function InitializeConfig(s: Ledger, admin: Pubkey, interestRateBps: U64,
                            liquidationThresholdBps: U64, priceStaleThreshold: U64): (r: Result<Ledger>)
  {
    Ok(s.(config := Some(ProtocolConfig(interestRateBps, liquidationThresholdBps, priceStaleThreshold, admin))))
  }

  /**
   * No argument is range-checked and there is no already-initialised guard: the call
   * always succeeds, the config then holds exactly the three arguments and the signer
   * as admin, and no user, vault, loan or token account changes.
   */
  lemma InitializeConfigWrites(s: Ledger, admin: Pubkey, interestRateBps: U64,
                               liquidationThresholdBps: U64, priceStaleThreshold: U64)
    ensures var r := InitializeConfig(s, admin, interestRateBps, liquidationThresholdBps, priceStaleThreshold);
            && r.Ok?
            && r.value.config.Some?
            && r.value.config.value.admin == admin
            && r.value.config.value.interestRateBps == interestRateBps
            && r.value.config.value.liquidationThresholdBps == liquidationThresholdBps
            && r.value.config.value.priceStaleThreshold == priceStaleThreshold
            && r.value.users == s.users && r.value.vaults == s.vaults
            && r.value.loans == s.loans && r.value.tokenAccounts == s.tokenAccounts
  {
  }

  /**
   * A repeat call succeeds and its result does not depend on the config that was there:
   * the second signer replaces the first as admin.
   */
  lemma InitializeConfigOverwrites(s: Ledger, first: Pubkey, second: Pubkey,
                                   a: U64, b: U64, c: U64, x: U64, y: U64, z: U64)
    ensures var once := InitializeConfig(s, first, a, b, c).value;
            && InitializeConfig(once, second, x, y, z) == InitializeConfig(s, second, x, y, z)
            && InitializeConfig(once, second, x, y, z).value.config.value.admin == second
  {
  }
}

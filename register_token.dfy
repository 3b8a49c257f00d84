/**
 * `register_token`: the config's admin writes the vault record of a collateral token.
 * The record's address is derived from the admin and the `token_mint` ACCOUNT, while the
 * mint it stores is the `token_mint` ARGUMENT; the two are never compared.
 */
module VaultInstruction {
  import opened Types
  import opened Errors
  import opened State

  /**
   * The instruction signed by `admin`, with `mintAccount` the `token_mint` account and the
   * three remaining arguments stored as they are. The config must exist and name the
   * signer (`has_one = admin`); an existing record is overwritten (`init_if_needed`).
   */
  function RegisterToken(s: Ledger, admin: Pubkey, mintAccount: Pubkey,
                         vaultAddress: Pubkey, tokenMint: Pubkey, priceFeed: Pubkey): (r: Result<Ledger>)
  {
    if s.config.None? then Err(AccountNotInitialized)
    else if s.config.value.admin != admin then Err(Program(Unauthorized))
    else Ok(s.(vaults := s.vaults[(admin, mintAccount) := CollateralVault(vaultAddress, tokenMint, priceFeed)]))
  }

  /** The only gate is the admin check: it fails exactly when the signer is not the config's admin. */
  lemma RegisterTokenChecks(s: Ledger, admin: Pubkey, mintAccount: Pubkey,
                            vaultAddress: Pubkey, tokenMint: Pubkey, priceFeed: Pubkey)
    ensures var r := RegisterToken(s, admin, mintAccount, vaultAddress, tokenMint, priceFeed);
            && (s.config.None? ==> r == Err(AccountNotInitialized))
            && (s.config.Some? && s.config.value.admin != admin ==> r == Err(Program(Unauthorized)))
            && (s.config.Some? && s.config.value.admin == admin <==> r.Ok?)
  {
  }

  /**
   * On success the record under (admin, mint account) holds exactly the three arguments,
   * unvalidated, even when `tokenMint` is not the mint account; the config and every other
   * account are unchanged.
   */
  lemma RegisterTokenWrites(s: Ledger, admin: Pubkey, mintAccount: Pubkey,
                            vaultAddress: Pubkey, tokenMint: Pubkey, priceFeed: Pubkey)
    requires s.config.Some? && s.config.value.admin == admin
    ensures var r := RegisterToken(s, admin, mintAccount, vaultAddress, tokenMint, priceFeed);
            && r.Ok?
            && r.value.vaults.Keys == s.vaults.Keys + {(admin, mintAccount)}
            && r.value.vaults[(admin, mintAccount)].vaultAddress == vaultAddress
            && r.value.vaults[(admin, mintAccount)].tokenMint == tokenMint
            && r.value.vaults[(admin, mintAccount)].priceFeed == priceFeed
            && (forall key | key in s.vaults && key != (admin, mintAccount) :: r.value.vaults[key] == s.vaults[key])
            && r.value.config == s.config && r.value.users == s.users
            && r.value.loans == s.loans && r.value.tokenAccounts == s.tokenAccounts
  {
  }

  /** Registering the same (admin, mint account) again succeeds, and the last call wins. */
  lemma RegisterTokenOverwrites(s: Ledger, admin: Pubkey, mintAccount: Pubkey,
                                v1: Pubkey, m1: Pubkey, f1: Pubkey, v2: Pubkey, m2: Pubkey, f2: Pubkey)
    requires RegisterToken(s, admin, mintAccount, v1, m1, f1).Ok?
    ensures var once := RegisterToken(s, admin, mintAccount, v1, m1, f1).value;
            RegisterToken(once, admin, mintAccount, v2, m2, f2) == RegisterToken(s, admin, mintAccount, v2, m2, f2)
  {
    var once := RegisterToken(s, admin, mintAccount, v1, m1, f1).value;
    assert once.vaults[(admin, mintAccount) := CollateralVault(v2, m2, f2)]
        == s.vaults[(admin, mintAccount) := CollateralVault(v2, m2, f2)];
  }
}

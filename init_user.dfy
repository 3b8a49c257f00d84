/**
 * `init_user`: creates the user account of the signing wallet, or reloads it when it
 * already exists (`init_if_needed`), and writes its `owner`.
 */
module UserInstruction {
  import opened Types
  import opened Errors
  import opened State

  /**
   * The instruction signed by `user`. The account's address is derived from
   * `["user", user]`, so there is one per wallet; a new account starts zero-filled.
   */
  function InitUser(s: Ledger, user: Pubkey): (r: Result<Ledger>)
  {
    var account := if user in s.users then s.users[user] else ZERO_USER;
    Ok(s.(users := s.users[user := account.(owner := user)]))
  }

  /**
   * The call always succeeds and the account's owner is the signer. A new account has all
   * eight slots at 0 and no active loan; on an existing one only `owner` is written, so
   * its balances and loan flag survive. No other account changes.
   */
  lemma InitUserWrites(s: Ledger, user: Pubkey)
    ensures var r := InitUser(s, user);
            && r.Ok?
            && r.value.users.Keys == s.users.Keys + {user}
            && r.value.users[user].owner == user
            && (user !in s.users ==>
                  && (forall j | 0 <= j < TOKEN_SLOTS :: r.value.users[user].tokenBalances[j] == 0)
                  && !r.value.users[user].hasActiveLoan)
            && (user in s.users ==>
                  && r.value.users[user].tokenBalances == s.users[user].tokenBalances
                  && r.value.users[user].hasActiveLoan == s.users[user].hasActiveLoan)
            && (forall k | k in s.users && k != user :: r.value.users[k] == s.users[k])
            && r.value.config == s.config && r.value.vaults == s.vaults
            && r.value.loans == s.loans && r.value.tokenAccounts == s.tokenAccounts
  {
  }

  /** Running the instruction a second time changes nothing. */
  lemma InitUserIdempotent(s: Ledger, user: Pubkey)
    ensures InitUser(InitUser(s, user).value, user) == InitUser(s, user)
  {
    var once := InitUser(s, user).value;
    assert once.users[user := once.users[user].(owner := user)] == once.users;
  }
}

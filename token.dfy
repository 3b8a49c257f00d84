/**
 * The SPL token program's `transfer`, as the deposit instruction uses it: a move of
 * `amount` between two token accounts, refused when the source is short or the
 * destination would overflow. A transfer from an account to itself is a no-op once the
 * balance check has passed.
 */
module Token {
  import opened Types
  import opened Errors
  import opened State

  function Transfer(accounts: map<Pubkey, TokenAccount>, from: Pubkey, to: Pubkey, amount: U64)
    : (r: Result<map<Pubkey, TokenAccount>>)
    requires from in accounts && to in accounts
    ensures r.Err? <==>
              accounts[from].amount < amount
              || (from != to && accounts[to].amount + amount > U64_MAX)
    ensures r.Err? ==> r.error == (if accounts[from].amount < amount then InsufficientFunds else Overflow)
    ensures r.Ok? && from == to ==> r.value == accounts
    ensures r.Ok? && from != to ==>
              && r.value.Keys == accounts.Keys
              && r.value[from] == accounts[from].(amount := accounts[from].amount - amount)
              && r.value[to] == accounts[to].(amount := accounts[to].amount + amount)
              && forall k | k in accounts && k != from && k != to :: r.value[k] == accounts[k]
  {
    var source := accounts[from];
    if source.amount < amount then Err(InsufficientFunds)
    else if from == to then Ok(accounts)
    else
      var debited := accounts[from := source.(amount := source.amount - amount)];
      var destination := debited[to];
      match CheckedAdd(destination.amount, amount)
      case None => Err(Overflow)
      case Some(credited) => Ok(debited[to := destination.(amount := credited)])
  }

  /** How much of `mint` one token account holds. */
  function Holding(account: TokenAccount, mint: Pubkey): (held: nat)
  {
    if account.mint == mint then account.amount else 0
  }

  /** The total amount of `mint` held over all token accounts. */
  ghost function Supply(accounts: map<Pubkey, TokenAccount>, mint: Pubkey): (total: nat)
    decreases |accounts|
  {
    if |accounts| == 0 then 0
    else
      var k := PickKey(accounts);
      Holding(accounts[k], mint) + Supply(accounts - {k}, mint)
  }

  /** Some key of a non-empty map. */
  ghost function PickKey(accounts: map<Pubkey, TokenAccount>): (k: Pubkey)
    requires |accounts| > 0
    ensures k in accounts && |accounts - {k}| == |accounts| - 1
  {
    var k :| k in accounts;
    assert (accounts - {k}).Keys == accounts.Keys - {k};
    k
  }

  /** The supply can be split at any key, not only at the one `Supply` picks. */
  lemma {:induction false} SupplyRemove(accounts: map<Pubkey, TokenAccount>, k: Pubkey, mint: Pubkey)
    requires k in accounts
    ensures Supply(accounts, mint) == Holding(accounts[k], mint) + Supply(accounts - {k}, mint)
    decreases |accounts|
  {
    var j := PickKey(accounts);
    if j != k {
      var rest := accounts - {j};
      SupplyRemove(rest, k, mint);
      SupplyRemove(accounts - {k}, j, mint);
      assert rest - {k} == (accounts - {k}) - {j};
    }
  }

  /** Replacing one account changes the supply by the difference of its holdings. */
  lemma SupplyUpdate(accounts: map<Pubkey, TokenAccount>, k: Pubkey, v: TokenAccount, mint: Pubkey)
    requires k in accounts
    ensures Supply(accounts[k := v], mint) + Holding(accounts[k], mint)
         == Supply(accounts, mint) + Holding(v, mint)
  {
    SupplyRemove(accounts, k, mint);
    SupplyRemove(accounts[k := v], k, mint);
    assert accounts[k := v] - {k} == accounts - {k};
  }

  /**
   * A transfer between two accounts of the same mint creates and destroys nothing:
   * the supply of every mint is the same afterwards.
   */
  lemma TransferConservesSupply(accounts: map<Pubkey, TokenAccount>, from: Pubkey, to: Pubkey,
                                amount: U64, mint: Pubkey)
    requires from in accounts && to in accounts
    requires accounts[from].mint == accounts[to].mint
    requires Transfer(accounts, from, to, amount).Ok?
    ensures Supply(Transfer(accounts, from, to, amount).value, mint) == Supply(accounts, mint)
  {
    if from != to {
      var source := accounts[from];
      var debited := accounts[from := source.(amount := source.amount - amount)];
      var credited := debited[to := accounts[to].(amount := accounts[to].amount + amount)];
      assert Transfer(accounts, from, to, amount).value == credited;
      SupplyUpdate(accounts, from, debited[from], mint);
      SupplyUpdate(debited, to, credited[to], mint);
    }
  }
}

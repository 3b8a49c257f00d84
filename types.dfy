/**
 * Machine integers and account keys shared by every part of the lending program.
 * Integer widths of the Rust program are subset types of `int`; overflow is never
 * silent here, it is checked by the same `checked_add` / `checked_sub` the program uses.
 */
module Types {

  const U64_MAX: int := 0xFFFF_FFFF_FFFF_FFFF

  /** Rust `u64`. */
  type U64 = n: int | 0 <= n <= U64_MAX

  /** Rust `u8` (the type of the `token_index` instruction arguments). */
  type U8 = n: int | 0 <= n < 0x100

  /** Rust `i64` (the type of `Clock::unix_timestamp`). */
  type I64 = n: int | -0x8000_0000_0000_0000 <= n < 0x8000_0000_0000_0000

  /** Number of balance slots in a user account: `token_balances: [u64; 8]`. */
  const TOKEN_SLOTS: nat := 8

  /** The value of a `[u64; 8]` balance array. */
  type Slots = s: seq<U64> | |s| == TOKEN_SLOTS witness [0, 0, 0, 0, 0, 0, 0, 0]

  /** The balance array of a freshly allocated (zero-filled) account. */
  const ZERO_SLOTS: Slots := [0, 0, 0, 0, 0, 0, 0, 0]

  /**
   * A Solana public key. Ordinary keys (wallets, mints, token accounts, price feeds)
   * are `Key`s; the collateral-vault account's address is derived from the seeds
   * `["vault", admin, mint]`, and the derivation is injective by construction here.
   */
  datatype Pubkey = Key(id: nat) | VaultPda(admin: Pubkey, mint: Pubkey)

  /** `Pubkey::default()`, the key a zero-filled account holds. */
  const DEFAULT_PUBKEY: Pubkey := Key(0)

  datatype Option<T> = None | Some(value: T)

  /** Rust `u64::checked_add`. */
  function CheckedAdd(a: U64, b: U64): (sum: Option<U64>)
  {
    if a + b <= U64_MAX then Some(a + b) else None
  }

  /** Rust `u64::checked_sub`. */
  function CheckedSub(a: U64, b: U64): (difference: Option<U64>)
  {
    if a >= b then Some(a - b) else None
  }
}

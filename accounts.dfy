/** On-chain storage as the handlers see it.

    An Anchor handler receives each account as an `Account<'info, T>`: the
    account's bytes deserialized into a `T`, which the handler mutates and
    which is written back only when the handler returns `Ok`.  A failing
    instruction therefore leaves every account as it was.  `Account<T>` is
    that cell; the handlers in this model work on a local copy of `data` and
    assign it back only on success. */
module Accounts {
  import opened Primitives

  class Account<T> {
    var data: T

    constructor (data: T)
      ensures this.data == data
    {
      this.data := data;
    }
  }

  /** An SPL token account, reduced to the one field the core affects. */
  datatype TokenAccount = TokenAccount(amount: u64)

  /** `token::burn`: the token program refuses a burn larger than the
      balance; `ok` stands for every other check it makes (mint, authority). */
  function Burn(account: TokenAccount, amount: u64, ok: bool): (r: Option<TokenAccount>)
    ensures r.Some? <==> ok && amount <= account.amount
    ensures r.Some? ==> r.value.amount as int == account.amount as int - amount as int
  {
    if ok && amount <= account.amount then Some(TokenAccount(account.amount - amount)) else None
  }

  /** `token::mint_to`: the token program refuses a mint that would carry the
      balance past `u64::MAX`; `ok` stands for every other check it makes. */
  function MintTo(account: TokenAccount, amount: u64, ok: bool): (r: Option<TokenAccount>)
    ensures r.Some? <==> ok && account.amount as int + amount as int <= U64_MAX
    ensures r.Some? ==> r.value.amount as int == account.amount as int + amount as int
  {
    match CheckedAdd(account.amount, amount)
    case Some(b) => if ok then Some(TokenAccount(b)) else None
    case None => None
  }
}

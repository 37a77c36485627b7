/** The `deposit` instruction: stake idle value in the external vault. */
module Stake {
  import opened Primitives
  import opened Accounts
  import opened FundState
  import opened Init

  /** The effect of `deposit(amount)` signed by `payer`, against the stored
      `admin`.  `vaultOk` is the outcome of the vault's deposit entry point,
      `now` the cluster clock; `vaultDepositor` and `programTokenAccount` are
      the account keys the two events name. */
  function DepositOutcome(admin: Pubkey, payer: Pubkey, fund: FundAccount, amount: u64,
                          vaultOk: bool, now: i64, vaultDepositor: Pubkey,
                          programTokenAccount: Pubkey): (r: Result<LedgerUpdate>)
    // the failures, in the order the handler checks for them
    ensures r == Err(UnauthorizedAdmin) <==> payer != admin
    ensures r == Err(InsufficientIdleFunds) <==> payer == admin && amount > fund.idleAmount
    ensures r == Err(CpiFailed) <==> payer == admin && amount <= fund.idleAmount && !vaultOk
    ensures r == Err(MathOverflow) <==>
      && payer == admin && amount <= fund.idleAmount && vaultOk
      && fund.stakedAmount as int + amount as int > U64_MAX
    ensures r.Ok? <==>
      && payer == admin && amount <= fund.idleAmount && vaultOk
      && fund.stakedAmount as int + amount as int <= U64_MAX
    // on success, `amount` moves from idle to staked and nothing else moves
    ensures r.Ok? ==>
      var f := r.value.fund;
      && f.idleAmount as int == fund.idleAmount as int - amount as int
      && f.stakedAmount as int == fund.stakedAmount as int + amount as int
      && f.sentAmount == fund.sentAmount
      && f.totalReceivedAmount == fund.totalReceivedAmount
      && f.authority == fund.authority
      && f.lastUpdateTime == now
      && Total(f) == Total(fund)
    ensures r.Ok? ==>
      r.value.events ==
      [ StakeStatusChanged(amount, true, vaultDepositor, now),
        FundStatusChanged(amount, Idle, Staked, programTokenAccount, now) ]
  {
    if payer != admin then Err(UnauthorizedAdmin)
    else if fund.idleAmount < amount then Err(InsufficientIdleFunds)
    else if !vaultOk then Err(CpiFailed)
    else
      match (CheckedSub(fund.idleAmount, amount), CheckedAdd(fund.stakedAmount, amount))
      case (Some(idle), Some(staked)) =>
        var f := fund.(idleAmount := idle, stakedAmount := staked, lastUpdateTime := now);
        Ok(LedgerUpdate(f, [ StakeStatusChanged(amount, true, vaultDepositor, now),
                             FundStatusChanged(amount, Idle, Staked, programTokenAccount, now) ]))
      case _ => Err(MathOverflow)
  }

  /** The idle-funds guard makes the idle subtraction safe: the only
      arithmetic failure left is the staked addition overflowing. */
  lemma IdleSubtractionCannotFail(fund: FundAccount, amount: u64)
    requires amount <= fund.idleAmount
    ensures CheckedSub(fund.idleAmount, amount).Some?
  {
  }

  /** The handler.  It reads the configuration, checks the two guards, calls
      the vault, then updates a copy of the ledger field by field; the copy is
      stored, and the events emitted, only if every step succeeded. */
  method Deposit(globalState: Account<GlobalState>, fundAccount: Account<FundAccount>,
                 payer: Pubkey, amount: u64, vaultOk: bool, now: i64,
                 vaultDepositor: Pubkey, programTokenAccount: Pubkey)
    returns (r: Result<seq<Event>>)
    modifies fundAccount
    ensures var o := DepositOutcome(globalState.data.admin, payer, old(fundAccount.data), amount,
                                    vaultOk, now, vaultDepositor, programTokenAccount);
      && (o.Err? ==> r == Err(o.error) && fundAccount.data == old(fundAccount.data))
      && (o.Ok? ==> r == Ok(o.value.events) && fundAccount.data == o.value.fund)
  {
    if globalState.data.admin != payer {
      return Err(UnauthorizedAdmin);
    }
    var f := fundAccount.data;
    if f.idleAmount < amount {
      return Err(InsufficientIdleFunds);
    }
    if !vaultOk {
      return Err(CpiFailed);
    }
    var idle := CheckedSub(f.idleAmount, amount);
    if idle.None? {
      return Err(MathOverflow);
    }
    f := f.(idleAmount := idle.value);
    var staked := CheckedAdd(f.stakedAmount, amount);
    if staked.None? {
      return Err(MathOverflow);
    }
    f := f.(stakedAmount := staked.value);
    f := f.(lastUpdateTime := now);
    fundAccount.data := f;
    r := Ok([ StakeStatusChanged(amount, true, vaultDepositor, f.lastUpdateTime),
              FundStatusChanged(amount, Idle, Staked, programTokenAccount, f.lastUpdateTime) ]);
  }
}

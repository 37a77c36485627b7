/** The `withdraw` instruction: unstake the whole vault position. */
module Unstake {
  import opened Primitives
  import opened Accounts
  import opened FundState
  import opened Init

  /** The effect of `withdraw()` signed by `payer`, against the stored
      `admin`.  `vaultShares` is the depositor's share count as the vault
      reports it (a `u128`), `vaultOk` the outcome of the vault's withdraw
      entry point, `now` the cluster clock; `vaultDepositor` and
      `userTokenAccount` are the account keys the two events name. */
  function WithdrawOutcome(admin: Pubkey, payer: Pubkey, fund: FundAccount, vaultShares: u128,
                           vaultOk: bool, now: i64, vaultDepositor: Pubkey,
                           userTokenAccount: Pubkey): (r: Result<LedgerUpdate>)
    // the failures, in the order the handler checks for them
    ensures r == Err(UnauthorizedAdmin) <==> payer != admin
    ensures r == Err(CpiFailed) <==> payer == admin && vaultShares as int <= U64_MAX && !vaultOk
    ensures r == Err(MathOverflow) <==>
      && payer == admin
      && (|| vaultShares as int > U64_MAX
          || (vaultOk && vaultShares as int > fund.stakedAmount as int)
          || (vaultOk && fund.idleAmount as int + vaultShares as int > U64_MAX))
    ensures r.Ok? <==>
      && payer == admin && vaultOk
      && vaultShares as int <= fund.stakedAmount as int
      && fund.idleAmount as int + vaultShares as int <= U64_MAX
    // on success exactly the reported shares move from staked to idle: never clamped
    ensures r.Ok? ==>
      var f := r.value.fund;
      && f.stakedAmount as int == fund.stakedAmount as int - vaultShares as int
      && f.idleAmount as int == fund.idleAmount as int + vaultShares as int
      && f.sentAmount == fund.sentAmount
      && f.totalReceivedAmount == fund.totalReceivedAmount
      && f.authority == fund.authority
      && f.lastUpdateTime == now
      && Total(f) == Total(fund)
    ensures r.Ok? ==>
      var w := vaultShares as int as u64;
      r.value.events ==
        [ StakeStatusChanged(w, false, vaultDepositor, now),
          FundStatusChanged(w, Staked, Idle, userTokenAccount, now) ]
  {
    if payer != admin then Err(UnauthorizedAdmin)
    else
      match U64FromU128(vaultShares)
      case None => Err(MathOverflow)
      case Some(w) =>
        if !vaultOk then Err(CpiFailed)
        else
          match (CheckedSub(fund.stakedAmount, w), CheckedAdd(fund.idleAmount, w))
          case (Some(staked), Some(idle)) =>
            var f := fund.(stakedAmount := staked, idleAmount := idle, lastUpdateTime := now);
            Ok(LedgerUpdate(f, [ StakeStatusChanged(w, false, vaultDepositor, now),
                                 FundStatusChanged(w, Staked, Idle, userTokenAccount, now) ]))
          case _ => Err(MathOverflow)
  }

  /** Unstaking a zero position succeeds and moves nothing: it only stamps
      the ledger with `now` (and emits two events for an amount of 0). */
  lemma WithdrawZeroPosition(admin: Pubkey, fund: FundAccount, vaultOk: bool, now: i64,
                             vaultDepositor: Pubkey, userTokenAccount: Pubkey)
    requires vaultOk
    ensures var r := WithdrawOutcome(admin, admin, fund, 0, vaultOk, now, vaultDepositor, userTokenAccount);
      r.Ok? && r.value.fund == fund.(lastUpdateTime := now)
  {
  }

  /** The handler.  It checks the admin, converts the reported shares, calls
      the vault, then updates a copy of the ledger field by field; the copy is
      stored, and the events emitted, only if every step succeeded. */
  method Withdraw(globalState: Account<GlobalState>, fundAccount: Account<FundAccount>,
                  payer: Pubkey, vaultShares: u128, vaultOk: bool, now: i64,
                  vaultDepositor: Pubkey, userTokenAccount: Pubkey)
    returns (r: Result<seq<Event>>)
    modifies fundAccount
    ensures var o := WithdrawOutcome(globalState.data.admin, payer, old(fundAccount.data), vaultShares,
                                     vaultOk, now, vaultDepositor, userTokenAccount);
      && (o.Err? ==> r == Err(o.error) && fundAccount.data == old(fundAccount.data))
      && (o.Ok? ==> r == Ok(o.value.events) && fundAccount.data == o.value.fund)
  {
    if globalState.data.admin != payer {
      return Err(UnauthorizedAdmin);
    }
    var withdrawal := U64FromU128(vaultShares);
    if withdrawal.None? {
      return Err(MathOverflow);
    }
    var w := withdrawal.value;
    if !vaultOk {
      return Err(CpiFailed);
    }
    var f := fundAccount.data;
    var staked := CheckedSub(f.stakedAmount, w);
    if staked.None? {
      return Err(MathOverflow);
    }
    f := f.(stakedAmount := staked.value);
    var idle := CheckedAdd(f.idleAmount, w);
    if idle.None? {
      return Err(MathOverflow);
    }
    f := f.(idleAmount := idle.value);
    f := f.(lastUpdateTime := now);
    fundAccount.data := f;
    r := Ok([ StakeStatusChanged(w, false, vaultDepositor, f.lastUpdateTime),
              FundStatusChanged(w, Staked, Idle, userTokenAccount, f.lastUpdateTime) ]);
  }
}

/** The `deposit_for_burn` instruction: send idle value out over the bridge. */
module Outbound {
  import opened Primitives
  import opened Accounts
  import opened FundState
  import opened CircleState

  /** What a successful outbound send writes. */
  datatype BurnUpdate = BurnUpdate(
    fund: FundAccount,
    messenger: TokenMessenger,
    burns: BurnMessages,
    programTokenAccount: TokenAccount,
    events: seq<Event>)

  /** The effect of `deposit_for_burn(amount, destinationDomain, mintRecipient)`.
      There is no signer parameter: the handler never compares its signer
      with anyone.  `burnOk` stands for the token program's checks other than
      the balance, `now` for the cluster clock; `mint` and
      `programTokenAccountKey` are the account keys the record and the status
      event name. */
  function DepositForBurnOutcome(fund: FundAccount, messenger: TokenMessenger, burns: BurnMessages,
                                 programTokenAccount: TokenAccount, mint: Pubkey, amount: u64,
                                 destinationDomain: u32, mintRecipient: Bytes32, burnOk: bool,
                                 now: i64, programTokenAccountKey: Pubkey): (r: Result<BurnUpdate>)
    // the failures, in the order they arise: account creation, then the handler
    ensures r == Err(AccountInUse) <==> messenger.nonce in burns
    ensures r == Err(InsufficientIdleFunds) <==> messenger.nonce !in burns && amount > fund.idleAmount
    ensures r == Err(CpiFailed) <==>
      && messenger.nonce !in burns && amount <= fund.idleAmount && messenger.nonce as int < U64_MAX
      && (!burnOk || amount > programTokenAccount.amount)
    ensures r == Err(MathOverflow) <==>
      && messenger.nonce !in burns && amount <= fund.idleAmount
      && (|| messenger.nonce as int == U64_MAX
          || (burnOk && amount <= programTokenAccount.amount
              && fund.sentAmount as int + amount as int > U64_MAX))
    ensures r.Ok? <==>
      && messenger.nonce !in burns && amount <= fund.idleAmount && messenger.nonce as int < U64_MAX
      && burnOk && amount <= programTokenAccount.amount
      && fund.sentAmount as int + amount as int <= U64_MAX
    // on success: one new record under the pre-call nonce, the nonce advanced by one
    ensures r.Ok? ==>
      && r.value.burns == burns[messenger.nonce :=
                                BurnMessage(amount, mint, destinationDomain, mintRecipient, messenger.nonce)]
      && r.value.messenger.nonce as int == messenger.nonce as int + 1
      && r.value.messenger == messenger.(nonce := r.value.messenger.nonce)
    // ... `amount` moves from idle to sent and leaves the token account
    ensures r.Ok? ==>
      var f := r.value.fund;
      && f.idleAmount as int == fund.idleAmount as int - amount as int
      && f.sentAmount as int == fund.sentAmount as int + amount as int
      && f.stakedAmount == fund.stakedAmount
      && f.totalReceivedAmount == fund.totalReceivedAmount
      && f.authority == fund.authority
      && f.lastUpdateTime == now
      && Total(f) == Total(fund)
      && r.value.programTokenAccount.amount as int == programTokenAccount.amount as int - amount as int
    ensures r.Ok? ==>
      r.value.events ==
      [ CrossChainFundSent(amount, destinationDomain, mintRecipient, now),
        FundStatusChanged(amount, Idle, Sent, programTokenAccountKey, now) ]
  {
    if messenger.nonce in burns then Err(AccountInUse)
    else if fund.idleAmount < amount then Err(InsufficientIdleFunds)
    else
      var record := BurnMessage(amount, mint, destinationDomain, mintRecipient, messenger.nonce);
      match CheckedAdd(messenger.nonce, 1)
      case None => Err(MathOverflow)
      case Some(next) =>
        match Burn(programTokenAccount, amount, burnOk)
        case None => Err(CpiFailed)
        case Some(token) =>
          match (CheckedSub(fund.idleAmount, amount), CheckedAdd(fund.sentAmount, amount))
          case (Some(idle), Some(sent)) =>
            var f := fund.(idleAmount := idle, sentAmount := sent, lastUpdateTime := now);
            Ok(BurnUpdate(f, messenger.(nonce := next), burns[messenger.nonce := record], token,
                          [ CrossChainFundSent(amount, destinationDomain, mintRecipient, now),
                            FundStatusChanged(amount, Idle, Sent, programTokenAccountKey, now) ]))
          case _ => Err(MathOverflow)
  }

  /** The handler.  Anchor first creates the burn-record account at the
      address derived from the current nonce, failing if it exists; the
      handler then checks idle funds, fills in the record, advances the nonce,
      burns, and updates the ledger.  All writes go to copies that are stored
      only if every step succeeded, so a failing send leaves no record and
      no advanced nonce behind. */
  method DepositForBurn(fundAccount: Account<FundAccount>, tokenMessenger: Account<TokenMessenger>,
                        burnMessages: Account<BurnMessages>, programTokenAccount: Account<TokenAccount>,
                        mint: Pubkey, amount: u64, destinationDomain: u32, mintRecipient: Bytes32,
                        burnOk: bool, now: i64, programTokenAccountKey: Pubkey)
    returns (r: Result<seq<Event>>)
    modifies fundAccount, tokenMessenger, burnMessages, programTokenAccount
    ensures var o := DepositForBurnOutcome(old(fundAccount.data), old(tokenMessenger.data),
                                           old(burnMessages.data), old(programTokenAccount.data), mint,
                                           amount, destinationDomain, mintRecipient, burnOk, now,
                                           programTokenAccountKey);
      && (o.Err? ==>
            && r == Err(o.error)
            && fundAccount.data == old(fundAccount.data)
            && tokenMessenger.data == old(tokenMessenger.data)
            && burnMessages.data == old(burnMessages.data)
            && programTokenAccount.data == old(programTokenAccount.data))
      && (o.Ok? ==>
            && r == Ok(o.value.events)
            && fundAccount.data == o.value.fund
            && tokenMessenger.data == o.value.messenger
            && burnMessages.data == o.value.burns
            && programTokenAccount.data == o.value.programTokenAccount)
  {
    var messenger := tokenMessenger.data;
    if messenger.nonce in burnMessages.data {
      return Err(AccountInUse);
    }
    var f := fundAccount.data;
    if f.idleAmount < amount {
      return Err(InsufficientIdleFunds);
    }
    var record := BurnMessage(amount, mint, destinationDomain, mintRecipient, messenger.nonce);
    var next := CheckedAdd(messenger.nonce, 1);
    if next.None? {
      return Err(MathOverflow);
    }
    messenger := messenger.(nonce := next.value);
    var token := Burn(programTokenAccount.data, amount, burnOk);
    if token.None? {
      return Err(CpiFailed);
    }
    var idle := CheckedSub(f.idleAmount, amount);
    if idle.None? {
      return Err(MathOverflow);
    }
    f := f.(idleAmount := idle.value);
    var sent := CheckedAdd(f.sentAmount, amount);
    if sent.None? {
      return Err(MathOverflow);
    }
    f := f.(sentAmount := sent.value);
    f := f.(lastUpdateTime := now);
    burnMessages.data := burnMessages.data[record.nonce := record];
    tokenMessenger.data := messenger;
    programTokenAccount.data := token.value;
    fundAccount.data := f;
    r := Ok([ CrossChainFundSent(amount, destinationDomain, mintRecipient, f.lastUpdateTime),
              FundStatusChanged(amount, Idle, Sent, programTokenAccountKey, f.lastUpdateTime) ]);
  }
}

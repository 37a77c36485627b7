/** The fund ledger record, the fund status enum and the events. */
module FundState {
  import opened Primitives

  /** The three states a unit of value can be in.  There is no received
      state: inbound value is never recorded in the ledger. */
  datatype FundStatus = Idle | Staked | Sent

  /** Every event the program declares.  `CrossChainFundReceived` is declared
      but no instruction emits it. */
  datatype Event =
    | FundStatusChanged(amount: u64, fromStatus: FundStatus, toStatus: FundStatus,
                        tokenAccount: Pubkey, timestamp: i64)
    | CrossChainFundReceived(amount: u64, sourceChain: u32, sender: Bytes32, timestamp: i64)
    | CrossChainFundSent(amount: u64, destinationChain: u32, recipient: Bytes32, timestamp: i64)
      /** `isStake` is true for a stake and false for a redemption */
    | StakeStatusChanged(amount: u64, isStake: bool, stakeAccount: Pubkey, timestamp: i64)

  /** The per-custody ledger.  All four counters are `u64`; the timestamp is
      a signed 64-bit Unix time. */
  datatype FundAccount = FundAccount(
    idleAmount: u64,
    stakedAmount: u64,
    sentAmount: u64,
    totalReceivedAmount: u64,
    lastUpdateTime: i64,
    authority: Pubkey)

  /** The value the ledger accounts for across its three buckets, computed
      without wrap-around. */
  function Total(f: FundAccount): int
  {
    f.idleAmount as int + f.stakedAmount as int + f.sentAmount as int
  }

  /** What a successful ledger instruction leaves behind: the new ledger and
      the events it emitted, in order. */
  datatype LedgerUpdate = LedgerUpdate(fund: FundAccount, events: seq<Event>)

  /** No event in `events` reports an inbound transfer. */
  predicate NoReceivedEvent(events: seq<Event>)
  {
    forall i :: 0 <= i < |events| ==> !events[i].CrossChainFundReceived?
  }
}

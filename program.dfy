/** The five instructions as transitions of the whole on-chain state.

    Each instruction runs as one transaction: it either succeeds and all of
    its writes take effect, or it fails and none does.  `Step` is one
    instruction, `Apply` adds the all-or-nothing rule, and `Run` executes a
    sequence one after the other.  The properties that hold across calls are
    stated on these. */
module Program {
  import opened Primitives
  import opened Accounts
  import opened FundState
  import opened CircleState
  import Init
  import Stake
  import Unstake
  import Outbound
  import Inbound

  /** Every account the five instructions read or write, and the events
      emitted so far. */
  datatype Chain = Chain(
    globalState: Init.GlobalState,
    fundAccount: FundAccount,
    tokenMessenger: TokenMessenger,
    messageTransmitter: MessageTransmitter,
    burnMessages: BurnMessages,
    programTokenAccount: TokenAccount,
    log: seq<Event>)

  /** One submitted instruction with its arguments, its signer, the outcome
      of the foreign programs it calls, and the clock it sees. */
  datatype Instruction =
    | InitializeIx(payer: Pubkey, programTokenAccountKey: Pubkey)
    | DepositIx(payer: Pubkey, amount: u64, vaultOk: bool, now: i64,
                vaultDepositor: Pubkey, programTokenAccountKey: Pubkey)
    | WithdrawIx(payer: Pubkey, vaultShares: u128, vaultOk: bool, now: i64,
                 vaultDepositor: Pubkey, userTokenAccountKey: Pubkey)
    | DepositForBurnIx(authority: Pubkey, mint: Pubkey, amount: u64, destinationDomain: u32,
                       mintRecipient: Bytes32, burnOk: bool, now: i64, programTokenAccountKey: Pubkey)
    | ReceiveMessageIx(relayer: Pubkey, message: Inbound.MessageData, signatures: seq<Signature>,
                       mintOk: bool)

  /** What every instruction, and so every run, keeps: */
  predicate Evolves(c: Chain, d: Chain)
  {
    // value is neither created nor destroyed across idle, staked and sent
    && Total(d.fundAccount) == Total(c.fundAccount)
    // inbound value is never recorded, and the ledger's authority never changes
    && d.fundAccount.totalReceivedAmount == c.fundAccount.totalReceivedAmount
    && d.fundAccount.authority == c.fundAccount.authority
    // nothing writes the transmitter
    && d.messageTransmitter == c.messageTransmitter
    // once initialized, the configuration is frozen; its totals stay zero
    && (c.globalState.initialized ==> d.globalState == c.globalState)
    && (Init.TotalsZero(c.globalState) ==> Init.TotalsZero(d.globalState))
    // the outbound nonce never goes back, and burn records are append-only
    && c.tokenMessenger.nonce <= d.tokenMessenger.nonce
    && (forall k :: k in c.burnMessages ==> k in d.burnMessages && d.burnMessages[k] == c.burnMessages[k])
    && (SequencedBy(c.burnMessages, c.tokenMessenger) ==> SequencedBy(d.burnMessages, d.tokenMessenger))
    // the log only grows, and never with an inbound-transfer event
    && c.log <= d.log
    && NoReceivedEvent(d.log[|c.log|..])
  }

  lemma EvolvesTransitive(c: Chain, d: Chain, e: Chain)
    requires Evolves(c, d) && Evolves(d, e)
    ensures Evolves(c, e)
  {
    assert e.log[|c.log|..] == d.log[|c.log|..] + e.log[|d.log|..];
  }

  /** One instruction against the chain: the handler's own outcome, with its
      writes applied on success. */
  function Step(c: Chain, ix: Instruction): (r: Result<Chain>)
    ensures r.Ok? ==> Evolves(c, r.value)
    // only a successful send touches the messenger and the burn records
    ensures r.Ok? && !ix.DepositForBurnIx? ==>
      r.value.tokenMessenger == c.tokenMessenger && r.value.burnMessages == c.burnMessages
    ensures r.Ok? && ix.DepositForBurnIx? ==>
      && r.value.tokenMessenger.nonce as int == c.tokenMessenger.nonce as int + 1
      && r.value.burnMessages == c.burnMessages[c.tokenMessenger.nonce :=
           BurnMessage(ix.amount, ix.mint, ix.destinationDomain, ix.mintRecipient, c.tokenMessenger.nonce)]
      && c.tokenMessenger.nonce !in c.burnMessages
    // `global_state` exists exactly once `initialize` has succeeded: Anchor's
    // `init` refuses to create it twice, and `deposit` and `withdraw` cannot
    // load it before then
    ensures ix.InitializeIx? && c.globalState.initialized ==> r == Err(AccountInUse)
    ensures (ix.DepositIx? || ix.WithdrawIx?) && !c.globalState.initialized ==>
      r == Err(AccountNotInitialized)
    // a successful receive mints and leaves the ledger alone
    ensures r.Ok? && ix.ReceiveMessageIx? ==>
      && r.value.fundAccount == c.fundAccount
      && r.value.programTokenAccount.amount as int == c.programTokenAccount.amount as int + ix.message.amount as int
  {
    match ix
    case InitializeIx(payer, key) =>
      if c.globalState.initialized then Err(AccountInUse) else
      (match Init.InitializeOutcome(c.globalState, payer, key)
      case Ok(g) => Ok(c.(globalState := g))
      case Err(e) => Err(e))
    case DepositIx(payer, amount, vaultOk, now, vaultDepositor, key) =>
      if !c.globalState.initialized then Err(AccountNotInitialized) else
      (match Stake.DepositOutcome(c.globalState.admin, payer, c.fundAccount, amount, vaultOk, now,
                                 vaultDepositor, key)
      case Ok(u) =>
        assert NoReceivedEvent(u.events);
        assert (c.log + u.events)[|c.log|..] == u.events;
        Ok(c.(fundAccount := u.fund, log := c.log + u.events))
      case Err(e) => Err(e))
    case WithdrawIx(payer, shares, vaultOk, now, vaultDepositor, key) =>
      if !c.globalState.initialized then Err(AccountNotInitialized) else
      (match Unstake.WithdrawOutcome(c.globalState.admin, payer, c.fundAccount, shares, vaultOk, now,
                                    vaultDepositor, key)
      case Ok(u) =>
        assert NoReceivedEvent(u.events);
        assert (c.log + u.events)[|c.log|..] == u.events;
        Ok(c.(fundAccount := u.fund, log := c.log + u.events))
      case Err(e) => Err(e))
    case DepositForBurnIx(_, mint, amount, domain, recipient, burnOk, now, key) =>
      (match Outbound.DepositForBurnOutcome(c.fundAccount, c.tokenMessenger, c.burnMessages,
                                           c.programTokenAccount, mint, amount, domain, recipient,
                                           burnOk, now, key)
      case Ok(u) =>
        assert NoReceivedEvent(u.events);
        assert (c.log + u.events)[|c.log|..] == u.events;
        Ok(c.(fundAccount := u.fund, tokenMessenger := u.messenger, burnMessages := u.burns,
              programTokenAccount := u.programTokenAccount, log := c.log + u.events))
      case Err(e) => Err(e))
    case ReceiveMessageIx(_, message, signatures, mintOk) =>
      (match Inbound.ReceiveMessageOutcome(c.messageTransmitter, c.programTokenAccount, message,
                                          signatures, mintOk)
      case Ok(t) =>
        assert c.log[|c.log|..] == [];
        Ok(c.(programTokenAccount := t))
      case Err(e) => Err(e))
  }

  /** A transaction is atomic: a failing instruction leaves the chain as it was. */
  function Apply(c: Chain, ix: Instruction): (d: Chain)
    ensures Evolves(c, d)
    ensures Step(c, ix).Err? ==> d == c
  {
    match Step(c, ix)
    case Ok(d) => d
    case Err(_) => c
  }

  /** The chain after the instructions of `ixs`, in order, each succeeding
      or failing on its own. */
  function Run(c: Chain, ixs: seq<Instruction>): (d: Chain)
    ensures Evolves(c, d)
    decreases |ixs|
  {
    if ixs == [] then
      assert c.log[|c.log|..] == [];
      c
    else
      var next := Apply(c, ixs[0]);
      var d := Run(next, ixs[1..]);
      EvolvesTransitive(c, next, d);
      d
  }

  /** Running two sequences back to back is running their concatenation, so
      what `Run` keeps holds at every intermediate point of a run as well. */
  lemma {:induction false} RunAppend(c: Chain, a: seq<Instruction>, b: seq<Instruction>)
    ensures Run(c, a + b) == Run(Run(c, a), b)
    decreases |a|
  {
    if a == [] {
      assert a + b == b;
    } else {
      assert (a + b)[0] == a[0];
      assert (a + b)[1..] == a[1..] + b;
      RunAppend(Apply(c, a[0]), a[1..], b);
    }
  }

  /** The nonces the successful sends of a run consume, in order: the keys of
      the burn records they create. */
  function CreatedKeys(c: Chain, ixs: seq<Instruction>): (keys: seq<u64>)
    // strictly increasing, so no two sends ever share a key ...
    ensures forall i, j :: 0 <= i < j < |keys| ==> keys[i] < keys[j]
    // ... all taken from the messenger's range during the run ...
    ensures forall i :: 0 <= i < |keys| ==>
      c.tokenMessenger.nonce <= keys[i] < Run(c, ixs).tokenMessenger.nonce
    // ... and each names a record stamped with that very nonce
    ensures forall i :: 0 <= i < |keys| ==>
      keys[i] in Run(c, ixs).burnMessages && Run(c, ixs).burnMessages[keys[i]].nonce == keys[i]
    // one key per nonce step: the messenger advances only by successful sends
    ensures |keys| == Run(c, ixs).tokenMessenger.nonce as int - c.tokenMessenger.nonce as int
    // no key was in use before the run, and the keys are exactly the records it adds
    ensures forall i :: 0 <= i < |keys| ==> keys[i] !in c.burnMessages
    ensures forall k :: (k in Run(c, ixs).burnMessages && k !in c.burnMessages) <==> k in keys
    decreases |ixs|
  {
    if ixs == [] then []
    else
      var next := Apply(c, ixs[0]);
      var rest := CreatedKeys(next, ixs[1..]);
      assert Run(c, ixs) == Run(next, ixs[1..]);
      if ixs[0].DepositForBurnIx? && Step(c, ixs[0]).Ok? then
        var k := c.tokenMessenger.nonce;
        assert k in next.burnMessages && next.burnMessages[k].nonce == k;
        assert k !in c.burnMessages && next.burnMessages.Keys == c.burnMessages.Keys + {k};
        assert forall i :: 0 <= i < |rest| ==> k < rest[i];
        [k] + rest
      else
        assert next.burnMessages == c.burnMessages && next.tokenMessenger == c.tokenMessenger;
        rest
  }

  /** The handler's `RepeatedInit` guard never fires in the deployed
      program: `init` has already refused an existing `global_state`, and the
      account it creates is not yet initialized. */
  lemma RepeatedInitNeverRaised(c: Chain, ix: Instruction)
    ensures Step(c, ix) != Err(RepeatedInit)
  {
  }

  /** After one successful `initialize`, every later one in the run fails
      at account creation, and the configuration stays as the first set it. */
  lemma {:induction false} InitializeOnce(c: Chain, ix: Instruction, ixs: seq<Instruction>)
    requires ix.InitializeIx? && Step(c, ix).Ok?
    ensures var d := Step(c, ix).value;
      && Run(d, ixs).globalState == d.globalState
      && d.globalState.admin == ix.payer
      && forall j :: 0 <= j < |ixs| ==> ixs[j].InitializeIx? ==>
           Step(Run(d, ixs[..j]), ixs[j]) == Err(AccountInUse)
  {
    var d := Step(c, ix).value;
    forall j | 0 <= j < |ixs| && ixs[j].InitializeIx?
      ensures Step(Run(d, ixs[..j]), ixs[j]) == Err(AccountInUse)
    {
      assert Evolves(d, Run(d, ixs[..j]));
    }
  }

  /** While the records are sequenced by the messenger (as they are from
      the default messenger on), a send never finds its account in use,
      and the key it takes lies above every existing key. */
  lemma SendTakesFreshKey(c: Chain, ix: Instruction)
    requires SequencedBy(c.burnMessages, c.tokenMessenger)
    requires ix.DepositForBurnIx?
    ensures Step(c, ix) != Err(AccountInUse)
    ensures forall k :: k in c.burnMessages ==> k < c.tokenMessenger.nonce
  {
  }

  /** Two successful sends in a row take consecutive nonces, and the second
      leaves the first one's record as it was. */
  lemma SuccessiveSends(c: Chain, ix1: Instruction, ix2: Instruction)
    requires ix1.DepositForBurnIx? && ix2.DepositForBurnIx?
    requires Step(c, ix1).Ok? && Step(Step(c, ix1).value, ix2).Ok?
    ensures var d := Step(c, ix1).value;
      var e := Step(d, ix2).value;
      && d.tokenMessenger.nonce as int == c.tokenMessenger.nonce as int + 1
      && e.tokenMessenger.nonce as int == c.tokenMessenger.nonce as int + 2
      && e.burnMessages[c.tokenMessenger.nonce].nonce == c.tokenMessenger.nonce
      && e.burnMessages[d.tokenMessenger.nonce].nonce == d.tokenMessenger.nonce
      && e.burnMessages[c.tokenMessenger.nonce] == d.burnMessages[c.tokenMessenger.nonce]
  {
  }

  /** The send handler compares its signer with no one: who signs does not
      change the outcome. */
  lemma SendIgnoresSigner(c: Chain, ix: Instruction, other: Pubkey)
    requires ix.DepositForBurnIx?
    ensures Step(c, ix) == Step(c, ix.(authority := other))
  {
  }

  /** A paused transmitter refuses every inbound message, and the refused
      transaction mints nothing. */
  lemma PausedRefusesReceive(c: Chain, ix: Instruction)
    requires ix.ReceiveMessageIx? && c.messageTransmitter.paused
    ensures Step(c, ix) == Err(TransmitterPaused)
    ensures Apply(c, ix).programTokenAccount == c.programTokenAccount
  {
  }

  /** A receive leaves the whole ledger as it was: `totalReceivedAmount` in
      particular does not grow by the minted amount. */
  lemma ReceiveLeavesLedger(c: Chain, ix: Instruction)
    requires ix.ReceiveMessageIx?
    ensures Apply(c, ix).fundAccount == c.fundAccount
  {
  }

  /** Idle 1000, stake 400, then send 600 to domain 5: idle 0, staked 400,
      sent 600, the nonce goes from 0 to 1, and record 0 holds the send. */
  lemma StakeThenSendScenario(c: Chain, admin: Pubkey, mint: Pubkey, recipient: Bytes32,
                              t1: i64, t2: i64, vaultDepositor: Pubkey, key: Pubkey)
    requires c.globalState.initialized && c.globalState.admin == admin
    requires c.fundAccount.idleAmount == 1000 && c.fundAccount.stakedAmount == 0
    requires c.fundAccount.sentAmount == 0
    requires c.tokenMessenger.nonce == 0 && c.burnMessages == map[]
    requires c.programTokenAccount.amount >= 600
    ensures var stake := DepositIx(admin, 400, true, t1, vaultDepositor, key);
      var send := DepositForBurnIx(admin, mint, 600, 5, recipient, true, t2, key);
      var d := Run(c, [stake, send]);
      && d.fundAccount.idleAmount == 0 && d.fundAccount.stakedAmount == 400
      && d.fundAccount.sentAmount == 600
      && d.tokenMessenger.nonce == 1
      && d.burnMessages == map[0 := BurnMessage(600, mint, 5, recipient, 0)]
      && d.log[|c.log|..] ==
         [ StakeStatusChanged(400, true, vaultDepositor, t1),
           FundStatusChanged(400, Idle, Staked, key, t1),
           CrossChainFundSent(600, 5, recipient, t2),
           FundStatusChanged(600, Idle, Sent, key, t2) ]
  {
    var stake := DepositIx(admin, 400, true, t1, vaultDepositor, key);
    var send := DepositForBurnIx(admin, mint, 600, 5, recipient, true, t2, key);
    var d1 := Apply(c, stake);
    assert d1.fundAccount.idleAmount == 600 && d1.fundAccount.stakedAmount == 400;
    var d2 := Apply(d1, send);
    assert Run(c, [stake, send]) == Run(d1, [send]) == Run(d2, []);
  }
}

/** The `receive_message` instruction: mint an attested inbound transfer. */
module Inbound {
  import opened Primitives
  import opened Accounts
  import opened CircleState

  /** An inbound cross-chain message as the relayer submits it. */
  datatype MessageData = MessageData(
    sourceDomain: u32,
    sender: Bytes32,
    recipient: Pubkey,
    amount: u64,
    messageBody: seq<u8>)

  /** The effect of `receive_message(message, signatures)` on the program
      token account; `mintOk` stands for the token program's checks other
      than overflow.  The transmitter is only read, the fund ledger is not an
      input at all, and nothing records that the message was consumed. */
  function ReceiveMessageOutcome(transmitter: MessageTransmitter, programTokenAccount: TokenAccount,
                                 message: MessageData, signatures: seq<Signature>,
                                 mintOk: bool): (r: Result<TokenAccount>)
    // the pause check comes first, the signature check second
    ensures r == Err(TransmitterPaused) <==> transmitter.paused
    ensures r == Err(InvalidSignatures) <==> !transmitter.paused && |signatures| == 0
    ensures r == Err(CpiFailed) <==>
      && !transmitter.paused && |signatures| > 0
      && (!mintOk || programTokenAccount.amount as int + message.amount as int > U64_MAX)
    ensures r.Ok? <==>
      && !transmitter.paused && |signatures| > 0 && mintOk
      && programTokenAccount.amount as int + message.amount as int <= U64_MAX
    // on success the balance rises by exactly the message's amount
    ensures r.Ok? ==> r.value.amount as int == programTokenAccount.amount as int + message.amount as int
  {
    if transmitter.paused then Err(TransmitterPaused)
    else if |signatures| == 0 then Err(InvalidSignatures)
    else
      match MintTo(programTokenAccount, message.amount, mintOk)
      case None => Err(CpiFailed)
      case Some(token) => Ok(token)
  }

  /** No replay protection: the same message, received twice while the mint
      keeps succeeding, is minted twice. */
  lemma ReplayMintsTwice(transmitter: MessageTransmitter, token: TokenAccount,
                         message: MessageData, signatures: seq<Signature>)
    requires ReceiveMessageOutcome(transmitter, token, message, signatures, true).Ok?
    requires token.amount as int + 2 * message.amount as int <= U64_MAX
    ensures var first := ReceiveMessageOutcome(transmitter, token, message, signatures, true);
      var second := ReceiveMessageOutcome(transmitter, first.value, message, signatures, true);
      second.Ok? && second.value.amount as int == token.amount as int + 2 * message.amount as int
  {
  }

  /** The handler: the two guards read the transmitter, then the mint into
      the program token account, stored only if it succeeded. */
  method ReceiveMessage(messageTransmitter: Account<MessageTransmitter>,
                        programTokenAccount: Account<TokenAccount>,
                        message: MessageData, signatures: seq<Signature>, mintOk: bool)
    returns (r: Result<()>)
    modifies programTokenAccount
    ensures var o := ReceiveMessageOutcome(messageTransmitter.data, old(programTokenAccount.data),
                                           message, signatures, mintOk);
      && (o.Err? ==> r == Err(o.error) && programTokenAccount.data == old(programTokenAccount.data))
      && (o.Ok? ==> r == Ok(()) && programTokenAccount.data == o.value)
  {
    if messageTransmitter.data.paused {
      return Err(TransmitterPaused);
    }
    if |signatures| == 0 {
      return Err(InvalidSignatures);
    }
    var token := MintTo(programTokenAccount.data, message.amount, mintOk);
    if token.None? {
      return Err(CpiFailed);
    }
    programTokenAccount.data := token.value;
    r := Ok(());
  }
}

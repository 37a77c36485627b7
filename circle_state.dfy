/** The bridge-side records: the inbound transmitter, the outbound
    messenger and the burn records it sequences. */
module CircleState {
  import opened Primitives

  /** Gates inbound mints.  Its `nonce` is not the outbound sequence. */
  datatype MessageTransmitter = MessageTransmitter(authority: Pubkey, nonce: u64, paused: bool)

  /** Sequences outbound transfers with its own `nonce`. */
  datatype TokenMessenger = TokenMessenger(
    authority: Pubkey, localToken: Pubkey, remoteDomain: u32, nonce: u64)

  /** One outbound transfer, written once when it is created. */
  datatype BurnMessage = BurnMessage(
    amount: u64, mint: Pubkey, remoteDomain: u32, recipient: Bytes32, nonce: u64)

  /** The burn-record accounts, by the nonce their address is derived from
      (the little-endian bytes of the nonce are the only varying seed, so the
      nonce determines the address and the other way round). */
  type BurnMessages = map<u64, BurnMessage>

  /** `#[derive(Default)]`: every field zero, false or the zero key. */
  function DefaultMessageTransmitter(): MessageTransmitter
  {
    MessageTransmitter(ZeroKey, 0, false)
  }

  function DefaultTokenMessenger(): TokenMessenger
  {
    TokenMessenger(ZeroKey, ZeroKey, 0, 0)
  }

  /** The burn records form the gap-free sequence 0, 1, ..., nonce - 1 of the
      messenger, and each record carries the nonce it is stored under. */
  predicate SequencedBy(burns: BurnMessages, messenger: TokenMessenger)
  {
    && (forall k: u64 :: k in burns <==> k < messenger.nonce)
    && (forall k :: k in burns ==> burns[k].nonce == k)
  }

  /** A default messenger, before any burn record exists, starts the
      sequence at 0: the first record will be stored and stamped under 0. */
  lemma DefaultsStartSequence()
    ensures DefaultMessageTransmitter().nonce == 0 && !DefaultMessageTransmitter().paused
    ensures DefaultTokenMessenger().nonce == 0
    ensures SequencedBy(map[], DefaultTokenMessenger())
  {
  }
}

# cpay fund ledger — a Dafny model

This project models the fund-ledger protocol of the `cpay` Solana/Anchor program and proves properties of it. The program keeps one ledger (`FundAccount`) with three buckets: idle, staked in an external vault, and sent out over the Circle bridge. Five instructions act on it:

- `initialize` sets up the singleton `GlobalState`: the admin and the program token account.
- `deposit` stakes idle value in the vault. Only the admin may call it.
- `withdraw` unstakes the whole vault position. Only the admin may call it.
- `deposit_for_burn` sends idle value out. It writes an append-only `BurnMessage` record keyed by the messenger's nonce, advances the nonce and burns the tokens.
- `receive_message` mints an inbound transfer into the program token account. It runs only while the transmitter is not paused and the signature list is not empty.

How the model is put together:

- **Records are datatypes.** Every Rust account struct is a Dafny `datatype` with the same name and fields. `u64`, `u32`, `u128` and `i64` are bounded newtypes, so every ledger counter lies in [0, 2^64) and the timestamp is a signed 64-bit value by construction. `FundStatus` has exactly the three variants `Idle`, `Staked` and `Sent`.
- **Accounts are a class.** An on-chain account is `Accounts.Account<T>`, a class with one mutable field `data`. This mirrors Anchor's `Account<'info, T>`. Anchor deserializes the account, the handler mutates that copy, and the copy is written back only when the handler returns `Ok`.
- **Handlers are methods.** Each handler is a method that takes its accounts and has a `modifies` clause. It works on local copies in the Rust handler's order, returns `Err` at the first failing guard or checked operation, and stores the copies only at the end. So a failing instruction leaves every account unchanged. This includes a burn record and a nonce increment written before a later failure.
- **Outcome functions specify the handlers.** Each method is proved equal to a pure outcome function (`DepositOutcome` and the like). That function's contract lists every error case, in the order the handler checks them, and what success changes and leaves alone.
- **Chain-level properties live in `Program`.** The `Program` module puts all the accounts and the event log into one `Chain` value. `Step` runs one instruction, `Apply` leaves the chain unchanged when the instruction fails, and `Run` executes a sequence of instructions. Properties that span several calls are proved on these:
  - `idle + staked + sent` is conserved.
  - The configuration is frozen once it is initialized.
  - Burn records are append-only and keyed by strictly increasing nonces.
  - No instruction emits `CrossChainFundReceived`.
- **Foreign calls and the clock are parameters.** Each foreign-program call (vault `deposit` and `withdraw`, `token::burn`, `token::mint_to`) is a boolean outcome parameter. The token program's own balance rules are also modelled: a burn cannot exceed the balance, and a mint cannot overflow `u64`. The clock (`Clock::get()`) is a parameter `now`, and the vault's reported share count is a parameter `vaultShares`.

## Model

| member | source | states |
|---|---|---|
| `Primitives.U64FromU128` | programs/cpay/src/instructions/withdraw.rs:17-18 | `u64::try_from` on the vault's `u128` share count succeeds exactly when the value fits in `u64`, and then preserves it |
| `Primitives.CheckedAdd` | programs/cpay/src/instructions/deposit.rs:53-54 | `u64::checked_add` returns `None` exactly when the sum leaves [0, 2^64), and otherwise the exact sum; the handlers use it for staked/idle/sent increases and the nonce increment (also withdraw.rs:51-52, deposit_for_burn.rs:83 and :112-113) |
| `Primitives.CheckedSub` | programs/cpay/src/instructions/deposit.rs:51-52 | `u64::checked_sub` returns `None` exactly when the difference leaves [0, 2^64), and otherwise the exact difference; the handlers use it for idle/staked decreases (also withdraw.rs:49-50, deposit_for_burn.rs:110-111) |
| `Accounts.Burn` | programs/cpay/src/circle/deposit_for_burn.rs:96-107 | the burn CPI succeeds iff the token program accepts it and the amount does not exceed the balance; the balance then drops by exactly the amount |
| `Accounts.MintTo` | programs/cpay/src/circle/receive_message.rs:81-92 | the mint CPI succeeds iff the token program accepts it and the balance does not overflow `u64`; the balance then rises by exactly the amount |
| `CircleState.DefaultsStartSequence` | programs/cpay/src/circle/state.rs:4-27 | a default transmitter is unpaused with nonce 0; a default messenger has nonce 0, and with no burn records yet the records are "sequenced" by it (keys exactly `0..nonce-1`, each stamped with its key) |
| `Init.InitializeOutcome` | programs/cpay/src/instructions/initialize.rs:8-18 | fails with `RepeatedInit` iff already initialized; otherwise `initialized`, `admin == payer`, `token_account` = the program token account, and all three totals 0 |
| `Init.Initialize` | programs/cpay/src/instructions/initialize.rs:8-18 | the handler's result and new `GlobalState` are `InitializeOutcome`'s; on failure the record is unchanged |
| `Init.SecondInitializeFails` | programs/cpay/src/instructions/initialize.rs:10-11 | after a successful initialize, a second one fails with `RepeatedInit` whoever signs it |
| `Stake.DepositOutcome` | programs/cpay/src/instructions/deposit.rs:11-75 | fails with `UnauthorizedAdmin` iff the payer is not the admin, then `InsufficientIdleFunds` iff amount > idle, then `CpiFailed` iff the vault refuses, then `MathOverflow` iff staked + amount overflows; on success idle decreases and staked increases by exactly `amount`, sent/received/authority are unchanged, the total is conserved, the timestamp is `now`, and the two events are `StakeStatusChanged(amount, true, ..)` and `FundStatusChanged(amount, Idle, Staked, ..)` stamped `now` |
| `Stake.IdleSubtractionCannotFail` | programs/cpay/src/instructions/deposit.rs:15-52 | once the idle-funds guard passes, the idle `checked_sub` cannot fail |
| `Stake.Deposit` | programs/cpay/src/instructions/deposit.rs:11-75 | the handler returns `DepositOutcome`'s result and events and stores its ledger only on success |
| `Unstake.WithdrawOutcome` | programs/cpay/src/instructions/withdraw.rs:12-73 | fails with `UnauthorizedAdmin` iff not admin; `MathOverflow` iff the shares do not fit `u64`, or (vault accepted) staked < shares or idle + shares overflows; `CpiFailed` iff the vault refuses; on success exactly the share count (never clamped) moves from staked to idle, sent/received/authority are unchanged, the total is conserved, and the events carry that amount, `is_stake == false` and `Staked -> Idle` stamped `now` |
| `Unstake.WithdrawZeroPosition` | programs/cpay/src/instructions/withdraw.rs:16-53 | unstaking a zero position succeeds and changes nothing but the timestamp, so a repeated unstake is a no-op on the amounts |
| `Unstake.Withdraw` | programs/cpay/src/instructions/withdraw.rs:12-73 | the handler returns `WithdrawOutcome`'s result and events and stores its ledger only on success |
| `Outbound.DepositForBurnOutcome` | programs/cpay/src/circle/deposit_for_burn.rs:43-134 | fails with `AccountInUse` iff a record already exists at the current nonce, then `InsufficientIdleFunds` iff amount > idle, then `MathOverflow` iff the nonce is `u64::MAX`, then `CpiFailed` iff the burn is refused, then `MathOverflow` iff sent + amount overflows; on success exactly one record `{amount, mint, domain, recipient, nonce}` is added under the pre-call nonce, the nonce advances by 1 and nothing else in the messenger changes, idle decreases and sent increases by `amount` with staked/received/authority unchanged and the total conserved, the token balance drops by `amount`, and the events are `CrossChainFundSent` and `FundStatusChanged(.., Idle, Sent, ..)` stamped `now` |
| `Outbound.DepositForBurn` | programs/cpay/src/circle/deposit_for_burn.rs:59-134 | the handler's result and all four written accounts are `DepositForBurnOutcome`'s; on any failure none of them changes (no record persists, the nonce is not advanced) |
| `Inbound.ReceiveMessageOutcome` | programs/cpay/src/circle/receive_message.rs:55-95 | fails with `TransmitterPaused` iff paused, then `InvalidSignatures` iff the signature list is empty, then `CpiFailed` iff the mint is refused; on success the program token balance rises by exactly `message.amount`; the transmitter is not written and the ledger is not an input |
| `Inbound.ReplayMintsTwice` | programs/cpay/src/circle/receive_message.rs:55-95 | no replay check: the same message received twice mints twice |
| `Inbound.ReceiveMessage` | programs/cpay/src/circle/receive_message.rs:55-95 | the handler's result and new token balance are `ReceiveMessageOutcome`'s; the transmitter is outside its `modifies` |
| `Program.Step` | programs/cpay/src/lib.rs:13-45 | every successful instruction conserves idle + staked + sent, leaves `total_received_amount`, the ledger authority and the transmitter unchanged, freezes an initialized `GlobalState` and keeps its totals zero, keeps the nonce monotone and the burn records append-only and sequenced, and appends only non-`CrossChainFundReceived` events; `initialize` fails with `AccountInUse` once `global_state` exists (Anchor's `init`), and `deposit`/`withdraw` fail with `AccountNotInitialized` before it does; only a send touches the messenger and the records (one record under the old nonce, nonce + 1); a receive leaves the ledger alone and mints exactly `message.amount` |
| `Program.Apply` | programs/cpay/src/lib.rs:13-45 | a Solana transaction is all-or-nothing: a failing instruction leaves the whole chain as it was, and a successful one keeps the `Evolves` invariants |
| `Program.Run` | programs/cpay/src/lib.rs:13-45 | the same invariants hold for every sequence of instructions, each of which succeeds atomically or fails without effect |
| `Program.RunAppend` | programs/cpay/src/lib.rs:13-45 | running `a` then `b` equals running `a + b`, so the invariants hold at every intermediate point of a run |
| `Program.CreatedKeys` | programs/cpay/src/circle/deposit_for_burn.rs:43-83 | the keys a run's successful sends take are exactly the burn records the run adds: none was in use before the run, and every added record's key is among them; there is one key per nonce step (their number is the nonce's advance); they are strictly increasing, so distinct and never reused, lie in the nonce range the messenger passed through, and each names a record stamped with that nonce in the final state |
| `Program.RepeatedInitNeverRaised` | programs/cpay/src/instructions/initialize.rs:10-26 | no instruction ever fails with `RepeatedInit`: Anchor's `init` refuses an existing `global_state` before the handler's guard is reached |
| `Program.InitializeOnce` | programs/cpay/src/instructions/initialize.rs:8-26 | after a successful `initialize`, every later `initialize` in any run fails with `AccountInUse`, and the configuration (admin = the first payer) never changes again |
| `Program.SendTakesFreshKey` | programs/cpay/src/circle/deposit_for_burn.rs:43-48 | while the records are sequenced by the messenger, a send never fails with `AccountInUse`, and its key exceeds every existing key |
| `Program.SuccessiveSends` | programs/cpay/src/circle/deposit_for_burn.rs:76-83 | two successful sends in a row take nonces n and n + 1, stamp their records accordingly, and the second leaves the first's record intact |
| `Program.SendIgnoresSigner` | programs/cpay/src/circle/deposit_for_burn.rs:59-73 | the outcome of a send does not depend on who signs it: there is no admin or authority check |
| `Program.PausedRefusesReceive` | programs/cpay/src/circle/receive_message.rs:63 | a paused transmitter refuses every inbound message with `TransmitterPaused`, and nothing is minted |
| `Program.ReceiveLeavesLedger` | programs/cpay/src/circle/receive_message.rs:55-95 | a receive, successful or not, leaves the whole ledger unchanged, `total_received_amount` included |
| `Program.StakeThenSendScenario` | programs/cpay/src/circle/deposit_for_burn.rs:76-113 | from idle 1000: stake 400 then send 600 to domain 5 gives idle 0, staked 400, sent 600, nonce 0 -> 1, the single record `{600, mint, 5, R, 0}` and the four events in order |

## Where the code departs from the intended protocol

The model follows the code in each of these cases. Each difference is stated as a proved property.

- `deposit_for_burn` makes no admin or authority comparison. Its only guard is the idle-funds check, so any signer can send the ledger's idle value out (`Program.SendIgnoresSigner`).
- `receive_message` never adds the minted amount to `total_received_amount`. That counter is never written at all (`Program.ReceiveLeavesLedger`, and the `Evolves` invariant of `Program.Run`).
- `receive_message` has no replay protection. The same message mints again every time it is received (`Inbound.ReplayMintsTwice`).
- `receive_message` only checks that the signature list is not empty. It does not verify any signature. It also ignores `message.recipient` and mints into the program token account whatever the message names.
- `GlobalState`'s `total_funds`, `staked_funds` and `idle_funds` are zeroed by `initialize` and never written again. They do not mirror the ledger (`Program.Run`: totals that start at zero stay zero).
- The `RepeatedInit` guard at `initialize.rs:10` never fires in the deployed program. Anchor's `init` constraint on `global_state` (`initialize.rs:23-26`) refuses an account that already exists, and the account it creates has `initialized == false`. So a second `initialize` fails with Anchor's error, not `RepeatedInit`. `Init.InitializeOutcome` models the handler's guard as written; `Program.Step` puts the `init` check in front of it (`Program.RepeatedInitNeverRaised`, `Program.InitializeOnce`).

## Left out

- The drift vault's share and price accounting is foreign code. The vault's `deposit` and `withdraw` are one boolean outcome each, and the share count `withdraw` reads is a parameter. The tokens the vault moves in and out of token accounts are not tracked.
- The token program is foreign code. Apart from its balance rules (burn at most the balance, mint without overflow), its checks (mint, authority, supply) are one boolean outcome per call.
- Anchor account validation is framework code and is not modelled: PDA seeds and bumps, `space`, `token::authority`, signer checks, account ownership and deserialization, and `vault_depositor.load()`. There are three exceptions. The burn record's `init` is a record store keyed by nonce whose insertion fails with `AccountInUse` if the key exists. The `init` of `global_state` fails with `AccountInUse` once `initialize` has succeeded. The loading of `global_state` by `deposit` and `withdraw` fails with `AccountNotInitialized` before then. In `Program`, `global_state` therefore exists exactly when its `initialized` flag is set; the handler methods in `Init`, `Stake` and `Unstake` take the account as given.
- `Program.Chain` holds one fund ledger and one token messenger, and every instruction acts on them. The program does not share them that way. `deposit` derives its ledger from any token account whose authority is `global_state` (`instructions/deposit.rs:84-89`, `:99-103`). `withdraw` derives it from `user_token_account`, which nothing constrains (`instructions/withdraw.rs:82-87`, `:104-106`). `deposit_for_burn` derives it from the mint's program token account (`circle/deposit_for_burn.rs:15-28`). So a stake, an unstake and a send need not touch the same ledger. Also, there is one `token_messenger` per mint (`circle/deposit_for_burn.rs:35-40`), but the burn record's address is seeded by the nonce alone (`:47`). The messengers of different mints therefore share one key space, and a send can fail at `init` on a key another mint's send took, even while its own messenger's records are sequenced. The conservation and ledger properties of `Program` hold per ledger, and the key-sequencing properties (`Program.SendTakesFreshKey`, `Program.CreatedKeys`, `Program.SuccessiveSends`) hold per mint, only when a single mint sends.
- `Program.Chain` takes the fund ledger, the token messenger and the message transmitter as already existing. None of the five instructions creates them: the only `init`s are `global_state` and the program token account in `initialize` (`instructions/initialize.rs:23-38`) and the burn record in `deposit_for_burn` (`circle/deposit_for_burn.rs:43-50`).
- The vault calls in `deposit` and `withdraw` sign with the seeds `["program_token_account", bump of global_state]` (`instructions/deposit.rs:39-44`, `instructions/withdraw.rs:39-43`). Those seeds do not derive `global_state`, so in the deployed program the vault call may never succeed. The model keeps `vaultOk` as a free parameter and does not decide which signer seeds the vault accepts.
- `Program` tracks a single program token account. The program derives it from the mint in `deposit_for_burn` and `receive_message`, but from `global_state` in `initialize`.
- `Clock::get()` is the parameter `now`. The case where it fails is not modelled.
- `emit!` is modelled as the returned event list and the `Chain`'s append-only log. Delivery to observers is not modelled.
- Signature cryptography and attester sets are not modelled, because the code performs none.
- Only the `ErrorCode` variants the core raises are modelled. Errors from foreign programs are folded into `CpiFailed`.
- `lib.rs` and `circle/mod.rs` only dispatch and re-export. `Program.Step` plays the dispatcher's role.
- The byte-size constants `GlobalState::LEN` and `FundAccount::LEN` are serialization sizes, not behaviour.
- Concurrency is not modelled. Solana serializes the transactions on one account, so a `Run` is any order in which they could land.

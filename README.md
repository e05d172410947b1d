# Atomic swaps on a UTXO ledger, modelled in Dafny

The system is a CorDapp for cross-asset atomic swaps. Coins of two assets,
BTC and DASH, are `UTXO` states. An owner moves value by consuming some
states and creating others in a transaction. A hashed time-lock contract
(`HTLC` state) escrows one coin for a receiver. The receiver can claim it by
revealing the preimage of a SHA-256 hash before a locktime. From the
locktime on, the sender can take it back.

One validator, `UTXOContract.verify`, decides which transactions the ledger
accepts. It handles six commands:

- Mint and Burn create and destroy coins;
- Transfer moves coins between owners;
- Lock escrows a coin;
- Unlock reveals the secret;
- Convert turns an escrow back into a coin.

Six flows build these transactions. In each, a counterparty co-signs after
its own check. An older, deprecated validator, `HTLCContract`, handles only
Lock and Unlock.

The model is split into modules that follow the source files:

- `Ledger`, `Assets`, `Hashing`: parties and their keys, Kotlin `Int`, the
  asset registry, and `HTLC.hash`.
- `UtxoState`, `HtlcState`: the two states. Each constructor is a `Result`
  that fails with the first requirement of the `init` block it breaks.
- `Transactions`: the ledger-transaction view the validators read. This is
  the states, the commands with their signers, the typed filters and the
  sums.
- `UtxoContract`, `UtxoContractProperties`: `verify` and what it accepts.
  - `UtxoContract` gives the first violated requirement, in source order. The `...Reported` lemmas state which violation is reported when the earlier checks pass.
  - `Admissible` is an independent statement of all the requirements at
    once.
  - The lemmas cover the escrow lifecycle and the effect of Kotlin's
    wrapping `Int` sums.
- `HtlcContract`: the deprecated validator.
- `Flows`, `MintFlow`, `BurnFlow`, `TransferFlow`, `LockFlow`, `UnlockFlow`,
  `ConvertFlow`: the pure core of each flow.
  - Each flow's build step becomes a function from the vault query results
    to the transaction, or to the `FlowException` it throws.
  - Corda's `TransactionBuilder` is a class whose methods append to its
    lists. Burn and Transfer fill it imperatively, and those methods are
    proved equal to the build functions.
  - Each acceptor's `checkTransaction` is modelled as well.
  - Lemmas relate what a flow builds to what its acceptor signs and to what
    the validator accepts.
- `Scenarios`: the happy paths of the flow tests, replayed on the model.

The clock (`Instant.now().epochSecond`) is a parameter `now`. SHA-256 is an
unspecified function from strings to 32-byte digests. The rendering of a
digest as lowercase hex is modelled exactly.

## Model

| member | source | states |
|---|---|---|
| Ledger.OwningKeyInjective | contracts/src/main/kotlin/com/template/contracts/UTXOContract.kt:41 | Distinct parties sign with distinct keys, so "every participant's key is among the signers" is about the parties themselves. |
| Ledger.OwningKeys | contracts/src/main/kotlin/com/template/contracts/UTXOContract.kt:41 | `part.map { it.owningKey }` keeps one key per participant, in list order. |
| Ledger.OwningKeysIn | contracts/src/main/kotlin/com/template/contracts/UTXOContract.kt:41 | A party's key is among the keys of a participant list exactly when the party is in the list. |
| Ledger.Wrap32 | contracts/src/main/kotlin/com/template/contracts/UTXOContract.kt:38-39 | Kotlin `Int` wrap-around: the result is congruent to the input modulo 2^32 and equals it whenever it fits. |
| Assets.ToString | contracts/src/main/kotlin/com/template/states/FungibleToken.kt:15 | An asset's string form is its code: "BTC" for BTC, "DASH" for DASH. |
| Assets.RegistryFacts | contracts/src/main/kotlin/com/template/states/FungibleToken.kt:18-26 | BTC and DASH have codes "BTC" and "DASH" and 8 decimals each. They are distinct, and the allow-list of the validator holds exactly these two. |
| Assets.EqualityIsIdentity | contracts/src/main/kotlin/com/template/states/FungibleToken.kt:12-16 | `Asset` does not override equality: an asset that copies BTC's code and decimals is neither BTC nor allowed (unless it is DASH). |
| Hashing.FormatByte | contracts/src/main/kotlin/com/template/states/HTLC.kt:30 | `"%02x"` renders a signed byte as exactly two lowercase hex digits. |
| Hashing.Hex | contracts/src/main/kotlin/com/template/states/HTLC.kt:28-31 | The fold renders n bytes as exactly 2n characters (two per byte). |
| Hashing.FormatParseByte | contracts/src/main/kotlin/com/template/states/HTLC.kt:30 | Every two-digit lowercase hex string is the rendering of the byte read back from it. |
| Hashing.ParseFormatByte | contracts/src/main/kotlin/com/template/states/HTLC.kt:30 | Reading back a byte's rendering gives the byte, negative bytes included. |
| Hashing.HexShape | contracts/src/main/kotlin/com/template/states/HTLC.kt:28-31 | The fold renders n bytes as 2n lowercase hex characters. |
| Hashing.UnhexHex | contracts/src/main/kotlin/com/template/states/HTLC.kt:28-31 | The rendering loses nothing: parsing it back gives the digest, so the rendering is injective. |
| Hashing.HexUnhex | contracts/src/main/kotlin/com/template/states/HTLC.kt:28-31 | Every even-length lowercase hex string is the rendering of the bytes parsed from it. |
| Hashing.HashShape | contracts/src/main/kotlin/com/template/states/HTLC.kt:28-31 | `hash(msg)` is always 64 lowercase hex characters. |
| Hashing.HashEqualIffDigestEqual | contracts/src/main/kotlin/com/template/states/HTLC.kt:28-31 | Two messages have equal hashes exactly when their SHA-256 digests are equal. |
| Hashing.Hash | contracts/src/main/kotlin/com/template/states/HTLC.kt:28-31 | `hash(msg)` always has 64 characters, two per digest byte. |
| UtxoState.New | contracts/src/main/kotlin/com/template/states/UTXO.kt:13-26 | Construction succeeds iff the owner is a participant and there are at least two participants. It fails with "owner is not in participants" first and "too few participants (given n)" second. A success carries the given fields. |
| UtxoState.DefaultAlwaysFails | contracts/src/main/kotlin/com/template/states/UTXO.kt:17-24 | The default participant list `[owner]` always fails, with "too few participants: given 1". |
| UtxoState.NewWithCounterparty | contracts/src/main/kotlin/com/template/states/UTXO.kt:28-29 | The counterparty constructor always succeeds, with participants `[owner, counterparty]`, and the coin is valid. |
| UtxoState.DuplicateParticipantsAccepted | contracts/src/main/kotlin/com/template/states/UTXO.kt:20-25 | Duplicate participants are not rejected: `[owner, owner]` passes. |
| UtxoState.WithParticipants | contracts/src/main/kotlin/com/template/states/UTXO.kt:31-33 | `withParticipants(p)` succeeds exactly when the copy with `p` appended passes the `init` block, and the copy differs only in its participants. |
| UtxoState.WithParticipantsPreserves | contracts/src/main/kotlin/com/template/states/UTXO.kt:31-33 | On a valid coin, `withParticipants(p)` succeeds, appends `p` at the end, keeps owner, asset and amount, and yields a valid coin. |
| HtlcState.Check | contracts/src/main/kotlin/com/template/states/HTLC.kt:36-41 | The `init` block accepts iff there are at least two participants and any secret hashes to `secretHash`. It reports too few participants first and a mismatched secret second. |
| HtlcState.IsSecretValid | contracts/src/main/kotlin/com/template/states/HTLC.kt:55 | A valid secret is present and its committed hash has 64 characters; `HtlcState.SecretHashShape` adds that they are lowercase hex. |
| HtlcState.WithSecret | contracts/src/main/kotlin/com/template/states/HTLC.kt:47-49 | `withSecret(s)` succeeds exactly when there are at least two participants and `hash(s)` is the committed hash, failing with the hash mismatch otherwise. The copy carries `s` and differs in nothing else. |
| HtlcState.WithParticipants | contracts/src/main/kotlin/com/template/states/HTLC.kt:43-45 | `withParticipants(p)` succeeds exactly when the copy with `p` appended passes the `init` block, and the copy differs only in its participants. |
| HtlcState.DefaultsConstruction | contracts/src/main/kotlin/com/template/states/HTLC.kt:21-22 | With the default participants `[sender, receiver]` and a fresh `linearId`, construction fails only for a secret that does not match the hash. |
| HtlcState.ValidSecretIsValid | contracts/src/main/kotlin/com/template/states/HTLC.kt:38-39 | A constructed HTLC that carries a secret has `isSecretValid()`. |
| HtlcState.WithSecretChangesOnlySecret | contracts/src/main/kotlin/com/template/states/HTLC.kt:47-49 | On a valid HTLC, `withSecret(s)` succeeds iff `hash(s) == secretHash`. The copy differs only in the secret, and that secret is valid. |
| HtlcState.WithoutSecretClears | contracts/src/main/kotlin/com/template/states/HTLC.kt:51-53 | On a valid HTLC, `withoutSecret()` succeeds, clears the secret, changes nothing else, and the result has no valid secret. |
| HtlcState.WithoutSecret | contracts/src/main/kotlin/com/template/states/HTLC.kt:51-53 | `withoutSecret()` fails exactly when there are fewer than two participants. A success has no secret and equals the original in every other field. |
| HtlcState.WithoutSecretIdempotent | contracts/src/main/kotlin/com/template/states/HTLC.kt:51-53 | Clearing the secret twice is clearing it once. |
| HtlcState.WithSecretThenWithout | contracts/src/main/kotlin/com/template/states/HTLC.kt:47-53 | Adding a secret and then clearing it gives the same state as only clearing it. |
| HtlcState.WithParticipantsPreserves | contracts/src/main/kotlin/com/template/states/HTLC.kt:43-45 | On a valid HTLC, `withParticipants(p)` succeeds and only appends `p` to the participants. |
| HtlcState.TooFewAlwaysFails | contracts/src/main/kotlin/com/template/states/HTLC.kt:38 | Fewer than two participants always fails construction, with "too few participants". |
| HtlcState.SecretHashShape | contracts/src/main/kotlin/com/template/states/HTLC.kt:55 | An HTLC with a valid secret commits to a 64-character lowercase hex hash. |
| Transactions.UtxosOf | contracts/src/main/kotlin/com/template/contracts/UTXOContract.kt:74-75 | `inputsOfType<UTXO>()` holds exactly the coins among the states. |
| Transactions.HtlcsOf | contracts/src/main/kotlin/com/template/contracts/UTXOContract.kt:92-93 | `inputsOfType<HTLC>()` holds exactly the escrows among the states. |
| Transactions.UtxoCommands | contracts/src/main/kotlin/com/template/contracts/UTXOContract.kt:27 | `requireSingleCommand<Commands>` sees exactly the commands of this contract. |
| Transactions.HtlcCommands | contracts/src/main/kotlin/com/template/contracts/HTLCContract.kt:30 | The commands of the deprecated contract are exactly those whose value is one of its commands. |
| Transactions.Amounts | contracts/src/main/kotlin/com/template/contracts/UTXOContract.kt:38-39 | `map { it.amount }` keeps every state's amount, in order. |
| Transactions.SumInt32IsWrappedSum | contracts/src/main/kotlin/com/template/contracts/UTXOContract.kt:38-39 | Kotlin's `sum()` over `Int` equals the true sum wrapped into 32 bits. |
| Transactions.SumInt32Exact | contracts/src/main/kotlin/com/template/contracts/UTXOContract.kt:38-39 | While the true sum fits in `Int`, `sum()` is exact. |
| Transactions.SumPositive | contracts/src/main/kotlin/com/template/contracts/UTXOContract.kt:45 | A sum of positive amounts is at least the number of amounts, and positive when there is at least one. |
| Transactions.SumAppend | contracts/src/main/kotlin/com/template/contracts/UTXOContract.kt:38-39 | Sums add up over concatenation. |
| UtxoContract.Verify | contracts/src/main/kotlin/com/template/contracts/UTXOContract.kt:26-60 | An accepted transaction has exactly one command and at least one state. All states share the first state's participant list, and every participant signed. All states share one asset, which is BTC or DASH, and every amount is positive. Except under Mint and Burn, input and output sums are equal. Lock, Unlock and Convert have one input and one output. Each command's own rules hold. |
| UtxoContract.GlobalChecks | contracts/src/main/kotlin/com/template/contracts/UTXOContract.kt:29-49 | The shared checks report a missing state as such and only then. When they pass, every state has the first state's participants and asset and a positive amount, all participants signed, the asset is allowed, the sums agree except under Mint and Burn, and Lock, Unlock and Convert have one input and one output. |
| UtxoContract.VerifyMint | contracts/src/main/kotlin/com/template/contracts/UTXOContract.kt:62-67 | An accepted Mint consumes nothing and creates one coin whose owner is among its participants. |
| UtxoContract.VerifyBurn | contracts/src/main/kotlin/com/template/contracts/UTXOContract.kt:69-71 | Burn passes exactly when nothing is created. |
| UtxoContract.VerifyTransfer | contracts/src/main/kotlin/com/template/contracts/UTXOContract.kt:73-79 | An accepted Transfer has a coin among its inputs and among its outputs, and every new owner is among the first input coin's participants. |
| UtxoContract.VerifyLock | contracts/src/main/kotlin/com/template/contracts/UTXOContract.kt:81-89 | An accepted one-in-one-out Lock turns a coin into an escrow meeting `LockRules`. |
| UtxoContract.VerifyUnlock | contracts/src/main/kotlin/com/template/contracts/UTXOContract.kt:91-99 | An accepted one-in-one-out Unlock turns an escrow into an escrow meeting `UnlockRules`. |
| UtxoContract.VerifyConvert | contracts/src/main/kotlin/com/template/contracts/UTXOContract.kt:101-112 | An accepted one-in-one-out Convert turns an escrow into a coin meeting `ConvertRules`. |
| UtxoContract.CommandChecks | contracts/src/main/kotlin/com/template/contracts/UTXOContract.kt:51-112 | The accepted command's own rules hold. Mint: no input, one coin output owned by a participant. Burn: no output. Transfer: coins in and out, new owners among the first input's participants. Lock, Unlock, Convert: as `LockRules`, `UnlockRules`, `ConvertRules`. |
| UtxoContract.Validate | contracts/src/main/kotlin/com/template/contracts/UTXOContract.kt:26-60 | The validator with exact sums. Except under Mint and Burn, an accepted transaction conserves value exactly. |
| UtxoContractProperties.ValidateIffAdmissible | contracts/src/main/kotlin/com/template/contracts/UTXOContract.kt:26-112 | The validator accepts exactly the transactions satisfying every requirement, stated independently of the order of the checks. |
| UtxoContractProperties.GlobalIff | contracts/src/main/kotlin/com/template/contracts/UTXOContract.kt:29-49 | The shared checks pass exactly when the shared requirements hold. |
| UtxoContractProperties.CommandIff | contracts/src/main/kotlin/com/template/contracts/UTXOContract.kt:51-59 | Given the shared requirements, the command's checks pass exactly when its requirements hold. |
| UtxoContractProperties.MintIff | contracts/src/main/kotlin/com/template/contracts/UTXOContract.kt:62-67 | Mint's checks pass exactly when there is no input and one coin output whose owner is a participant. |
| UtxoContractProperties.TransferIff | contracts/src/main/kotlin/com/template/contracts/UTXOContract.kt:73-79 | Transfer's checks pass exactly when there are coins on both sides and every new owner is among the first input coin's participants. |
| UtxoContractProperties.LockIff | contracts/src/main/kotlin/com/template/contracts/UTXOContract.kt:81-89 | Lock's checks pass exactly when the coin is locked by its owner, for a receiver other than the owner who is a participant, with no secret and a locktime after `now`. |
| UtxoContractProperties.UnlockIff | contracts/src/main/kotlin/com/template/contracts/UTXOContract.kt:91-99 | Unlock's checks pass exactly when the output is the input with a secret added, strictly before the locktime, and that secret is valid. |
| UtxoContractProperties.ConvertIff | contracts/src/main/kotlin/com/template/contracts/UTXOContract.kt:101-112 | Convert's checks pass exactly when, before the locktime, the escrow has a valid secret and pays its receiver, or, from the locktime on, pays its sender. |
| UtxoContractProperties.GlobalRulesFrom | contracts/src/main/kotlin/com/template/contracts/UTXOContract.kt:40-48 | States with one participant list (all signing), one allowed asset and positive amounts meet the shared requirements. This also needs the sum and one-in-one-out requirements of the command. |
| UtxoContractProperties.AsWrittenAgreesWithoutOverflow | contracts/src/main/kotlin/com/template/contracts/UTXOContract.kt:38-46 | While both true sums fit in `Int`, the check with wrapping sums decides exactly as the check with exact sums. |
| UtxoContractProperties.OverflowCreatesValue | contracts/src/main/kotlin/com/template/contracts/UTXOContract.kt:38-46 | As written, a Transfer of well-formed coins that creates 2^32 units of DASH is accepted. Exact sums reject it. |
| UtxoContractProperties.EscrowCarriesAmountAndAsset | contracts/src/main/kotlin/com/template/contracts/UTXOContract.kt:43-48 | Under Lock, Unlock and Convert, the single output has the single input's amount and asset. |
| UtxoContractProperties.EscrowLifecycle | contracts/src/main/kotlin/com/template/contracts/UTXOContract.kt:81-112 | Lock creates an escrow with no secret and a future locktime. Unlock moves an escrow with no secret to one with a valid secret, before expiry, keeping its `linearId`. Before expiry, Convert pays only the receiver and only from an escrow with a valid secret; from expiry on, it pays only the sender. |
| UtxoContractProperties.UnlockIffSecretMatches | contracts/src/main/kotlin/com/template/contracts/UTXOContract.kt:91-99 | For an escrow with no secret, before expiry, with everything else in order, unlocking with `s` is accepted exactly when `hash(s)` is the committed hash. |
| UtxoContractProperties.ConvertLockedBeforeExpiryRejected | contracts/src/main/kotlin/com/template/contracts/UTXOContract.kt:104-106 | Converting an escrow with no secret before its locktime is always rejected. |
| UtxoContractProperties.PositivityAndAllowList | contracts/src/main/kotlin/com/template/contracts/UTXOContract.kt:44-45 | Any transaction with a non-positive amount, or with an asset other than BTC and DASH, is rejected. |
| UtxoContractProperties.TransferMaySpendEscrow | contracts/src/main/kotlin/com/template/contracts/UTXOContract.kt:73-79 | Transfer checks only the coin states: when every participant signs, a Transfer may consume an escrow that has no secret, before its locktime. |
| UtxoContractProperties.WellFormedNeverFailsStateChecks | contracts/src/main/kotlin/com/template/contracts/UTXOContract.kt:62-99 | For constructed states, two checks can never be the reason for a rejection: Mint's owner-among-participants check, and Unlock's `withoutSecret()` copy. |
| UtxoContractProperties.MintOwnerAlwaysParticipant | contracts/src/main/kotlin/com/template/contracts/UTXOContract.kt:65-66 | For constructed states, Mint is never rejected for an owner outside the participants. |
| UtxoContractProperties.UnlockCopyAlwaysValid | contracts/src/main/kotlin/com/template/contracts/UTXOContract.kt:92-95 | For constructed states, Unlock's `withoutSecret()` copy never fails. |
| UtxoContractProperties.ParticipantsDifferReported | contracts/src/main/kotlin/com/template/contracts/UTXOContract.kt:40 | With one command, a state whose participant list differs from the first state's is the violation reported, whatever else is wrong. |
| UtxoContractProperties.MissingSignatureReported | contracts/src/main/kotlin/com/template/contracts/UTXOContract.kt:40-41 | With one participant list, a participant whose key did not sign is the violation reported. |
| UtxoContractProperties.AssetNotAllowedReported | contracts/src/main/kotlin/com/template/contracts/UTXOContract.kt:40-44 | With one participant list, all keys signing and one asset, an asset other than BTC and DASH is the violation reported, whatever the amounts. |
| UtxoContractProperties.NonPositiveAmountReported | contracts/src/main/kotlin/com/template/contracts/UTXOContract.kt:40-45 | With everything before it in order, a state of amount zero or less is the violation reported, before conservation is looked at. |
| UtxoContractProperties.AmountsNotConservedReported | contracts/src/main/kotlin/com/template/contracts/UTXOContract.kt:40-46 | With everything before it in order, unequal sums under a command other than Mint and Burn are the violation reported. |
| UtxoContractProperties.CommandViolationReported | contracts/src/main/kotlin/com/template/contracts/UTXOContract.kt:26-60 | Once the shared requirements hold, the result is exactly that of the command's own checks. |
| HtlcContract.ContractCommands | contracts/src/main/kotlin/com/template/contracts/HTLCContract.kt:30 | `requireSingleCommand<Commands>` sees exactly this contract's commands. |
| HtlcContract.CommandsOf | contracts/src/main/kotlin/com/template/contracts/HTLCContract.kt:49-68 | `requireSingleCommand<Commands.Lock>` (or `Unlock`) sees exactly the commands with that value. |
| HtlcContract.Verify | contracts/src/main/kotlin/com/template/contracts/HTLCContract.kt:29-81 | An accepted transaction has one command of this contract, one input and one output, with equal participant lists, all of whose keys signed. Lock: the `LockRules`, namely owner = sender ≠ receiver, receiver a participant, equal allowed assets, equal positive amounts, no secret, locktime after `now`. Unlock: escrow to coin with the same asset, an equal positive amount, the receiver a participant, and a non-null input secret. |
| HtlcContract.VerifyLock | contracts/src/main/kotlin/com/template/contracts/HTLCContract.kt:49-63 | An accepted Lock has one Lock command and, with one input and one output, turns a coin into an escrow meeting this contract's `LockRules`. |
| HtlcContract.VerifyUnlock | contracts/src/main/kotlin/com/template/contracts/HTLCContract.kt:65-81 | An accepted Unlock has one Unlock command and, with one input and one output, turns an escrow into a coin meeting this contract's `UnlockRules`. |
| HtlcContract.IsValidHash | contracts/src/main/kotlin/com/template/contracts/HTLCContract.kt:100-101 | As written, whatever passes `isValidHash` is the hash of no message. |
| HtlcContract.IsValidHashRejectsEveryHash | contracts/src/main/kotlin/com/template/contracts/HTLCContract.kt:100-101 | As written, `isValidHash` rejects every hash `HTLC.hash` can produce. |
| HtlcContract.IsValidSha256HexIffRendering | contracts/src/main/kotlin/com/template/contracts/HTLCContract.kt:100-101 | The corrected check (64 lowercase hex characters) accepts exactly the renderings of digests, hence every hash. |
| HtlcContract.UnlockWellFormedHasValidSecret | contracts/src/main/kotlin/com/template/contracts/HTLCContract.kt:65-81 | For constructed states, an accepted Unlock's input carries a valid secret, because the non-null secret passed the `init` block. |
| Flows.MyInputs | workflows/src/main/kotlin/com/template/flows/Transfer.kt:50-52 | The candidates are exactly the vault's coins that the initiator owns, of the asset. |
| Flows.HtlcsWithId | workflows/src/main/kotlin/com/template/flows/Unlock.kt:35-39 | The lookup by UUID returns exactly the vault's escrows with that `linearId`. |
| Flows.ClaimAcceptorCheck | workflows/src/main/kotlin/com/template/flows/Unlock.kt:81-97 | The acceptor of Unlock and Convert signs exactly when every input is an escrow and the only output is a coin owned by the initiator. |
| Flows.CoinAmounts | workflows/src/main/kotlin/com/template/flows/Transfer.kt:59 | `map { it.state.data.amount }` keeps every coin's amount, in order. |
| Flows.AmountsOfStates | workflows/src/main/kotlin/com/template/flows/Transfer.kt:59 | The amounts of coins taken as input states are the coins' amounts. |
| Flows.TransactionBuilder.constructor | workflows/src/main/kotlin/com/template/flows/Transfer.kt:63 | A new builder has no input, no output and no command. |
| Flows.AsStates | workflows/src/main/kotlin/com/template/flows/Burn.kt:51 | Coins become input states one for one, in order. |
| Flows.UtxosOfStates | workflows/src/main/kotlin/com/template/flows/Burn.kt:51 | The coins among coin input states are the coins themselves. |
| Flows.TransactionBuilder.AddInputState | workflows/src/main/kotlin/com/template/flows/Burn.kt:51 | Appends one input, leaving outputs and commands unchanged. |
| Flows.TransactionBuilder.AddOutputState | workflows/src/main/kotlin/com/template/flows/Transfer.kt:65-68 | Appends one output, leaving inputs and commands unchanged. |
| Flows.TransactionBuilder.AddCommand | workflows/src/main/kotlin/com/template/flows/Transfer.kt:64 | Appends one command with its signers, leaving inputs and outputs unchanged. |
| Flows.TransactionBuilder.AddInputCoins | workflows/src/main/kotlin/com/template/flows/Transfer.kt:66 | The `forEach` appends the coins as inputs, in order, and changes nothing else. |
| MintFlow.BuildMint | workflows/src/main/kotlin/com/template/flows/Mint.kt:30-33 | Mint builds no input, one coin made by the counterparty constructor (owner the initiator, participants `[me, counterparty]`), and a Mint command signed by both. |
| MintFlow.BuiltMintAcceptedIff | workflows/src/main/kotlin/com/template/flows/Mint.kt:30-33 | The validator accepts the minted coin exactly when the asset is BTC or DASH and the amount is positive. |
| MintFlow.AcceptorCheck | workflows/src/main/kotlin/com/template/flows/Mint.kt:69-74 | The counterparty signs exactly when the only output is a coin owned by the initiator. |
| MintFlow.AcceptorSignsBuilt | workflows/src/main/kotlin/com/template/flows/Mint.kt:71-74 | The counterparty signs what the initiator builds. It refuses the same transaction from any other initiator, because the coin is not theirs. |
| BurnFlow.Initiate | workflows/src/main/kotlin/com/template/flows/Burn.kt:41-51 | Filling the builder command-first and then coin by coin yields the burn transaction, or fails when nothing is owned. |
| BurnFlow.BuildBurn | workflows/src/main/kotlin/com/template/flows/Burn.kt:41-51 | The burn fails, with "no UTXO found" only, exactly when the initiator owns no coin of the asset. A built burn creates nothing and consumes at least one coin. |
| BurnFlow.AcceptorCheck | workflows/src/main/kotlin/com/template/flows/Burn.kt:79-84 | The counterparty signs exactly when every input is a coin owned by the initiator. |
| BurnFlow.BurnOutcome | workflows/src/main/kotlin/com/template/flows/Burn.kt:41-51 | The flow fails exactly when the initiator owns no coin of the asset. Otherwise it consumes exactly those coins, creates nothing, and both parties sign a Burn. |
| BurnFlow.AcceptorSignsBuilt | workflows/src/main/kotlin/com/template/flows/Burn.kt:82-84 | The counterparty signs every burn the initiator builds. |
| BurnFlow.BuiltBurnAccepted | workflows/src/main/kotlin/com/template/flows/Burn.kt:41-51 | The validator accepts the burn when the coins are of an allowed asset, have positive amounts and share a participant list drawn from the two parties. |
| TransferFlow.PickCoins | workflows/src/main/kotlin/com/template/flows/Transfer.kt:30-37 | `pickEnoughCoins` returns the shortest prefix of the candidates whose `Int` sum reaches the amount. If no prefix does, it throws "insufficient balance" with the sum of all candidates. |
| TransferFlow.PickEnoughCoins | workflows/src/main/kotlin/com/template/flows/Transfer.kt:30-37 | A result extends `acc`, stays within the candidates and reaches the amount in `Int`. A failure is "insufficient balance" for the amount. |
| TransferFlow.Change | workflows/src/main/kotlin/com/template/flows/Transfer.kt:59-60 | `sumToSend - amount` in `Int`: the true difference when it fits, otherwise congruent to it modulo 2^32. |
| TransferFlow.BuildTransfer | workflows/src/main/kotlin/com/template/flows/Transfer.kt:48-68 | The transfer fails with "no UTXO found" exactly when the initiator owns no coin of the asset. A built transfer pays the receiver the amount first and spends only the initiator's coins of the asset from the vault. |
| TransferFlow.AcceptorCheck | workflows/src/main/kotlin/com/template/flows/Transfer.kt:96-104 | The receiver signs exactly when every state is a coin and every input is owned by the initiator. |
| TransferFlow.PickInvariant | workflows/src/main/kotlin/com/template/flows/Transfer.kt:30-37 | Each recursive step keeps `acc` a prefix of the candidates whose proper prefixes all fall short. |
| TransferFlow.ConstructionSucceeds | workflows/src/main/kotlin/com/template/flows/Transfer.kt:57-68 | The destination coin and the change coin always pass construction. |
| TransferFlow.Initiate | workflows/src/main/kotlin/com/template/flows/Transfer.kt:48-68 | The imperative build yields the transfer transaction (the command, the destination, the picked coins, then the change when positive) or the flow's failure. |
| TransferFlow.TransferOutcome | workflows/src/main/kotlin/com/template/flows/Transfer.kt:50-68 | The flow fails with "no UTXO found" when nothing is owned, and with "insufficient balance" when the coins fall short. Otherwise it spends the picked prefix, pays the receiver the amount, returns change only when positive, and both sign a Transfer. |
| TransferFlow.ChangeNonNegative | workflows/src/main/kotlin/com/template/flows/Transfer.kt:58-68 | For a positive amount the change is the picked sum minus the amount and is never negative. The outputs are worth exactly the inputs' `Int` sum. |
| TransferFlow.AcceptorSignsBuilt | workflows/src/main/kotlin/com/template/flows/Transfer.kt:102-104 | The receiver signs every transfer the initiator builds. |
| TransferFlow.PrefixSumBound | workflows/src/main/kotlin/com/template/flows/Transfer.kt:30-37 | A prefix of positive amounts sums to between zero and the total. |
| TransferFlow.PickedSumExact | workflows/src/main/kotlin/com/template/flows/Transfer.kt:32-59 | With positive coins whose total fits in `Int`, the picked coins' `Int` sum is their true sum. |
| TransferFlow.BuiltStates | workflows/src/main/kotlin/com/template/flows/Transfer.kt:57-68 | Every state of a built transfer is a positive coin of the asset with participants `[me, receiver]`, and every output is owned by one of the two. |
| TransferFlow.BuiltTransferAccepted | workflows/src/main/kotlin/com/template/flows/Transfer.kt:50-68 | The validator accepts the transfer when the initiator's coins of an allowed asset are positive, shared with the receiver, and total no more than `Int` can hold. |
| TransferFlow.TransferTxAccepted | contracts/src/main/kotlin/com/template/contracts/UTXOContract.kt:26-79 | A Transfer signed by two parties, over positive coins of one allowed asset shared by both, with new owners among them and equal sums, is accepted. |
| LockFlow.ExactAmount | workflows/src/main/kotlin/com/template/flows/Lock.kt:49 | `coinsToLock` holds exactly the candidates of exactly the amount. |
| LockFlow.BuildLockAt | workflows/src/main/kotlin/com/template/flows/Lock.kt:42-64 | The build succeeds exactly when the vault holds a coin of the initiator, of the asset and of exactly the amount. A built lock creates one escrow committing to the given hash and locktime. |
| LockFlow.BuildLock | workflows/src/main/kotlin/com/template/flows/Lock.kt:59 | As written, the escrow commits to the hash of the flow's argument. |
| LockFlow.BuildLockCorrected | workflows/src/main/kotlin/com/template/flows/Lock.kt:59 | Corrected, the escrow commits to the flow's argument as given and expires `lockDuration` after `now`. |
| LockFlow.AcceptorCheck | workflows/src/main/kotlin/com/template/flows/Lock.kt:92-101 | The receiver signs exactly when every input is a coin owned by the initiator and every output is an escrow. |
| LockFlow.EscrowConstructionSucceeds | workflows/src/main/kotlin/com/template/flows/Lock.kt:59 | The escrow the flow creates (no secret, the committed hash, default participants) always passes construction. |
| LockFlow.LockOutcome | workflows/src/main/kotlin/com/template/flows/Lock.kt:42-64 | The flow fails with "no UTXO found" exactly when nothing of the asset is owned, and with "no exact amount" exactly when no owned coin has the amount. Otherwise it consumes one such coin, creates the escrow, and both sign a Lock. |
| LockFlow.LockedCoinIsFirst | workflows/src/main/kotlin/com/template/flows/Lock.kt:49-63 | The coin locked is the first coin in the vault that the initiator owns, of the asset and of exactly the amount. |
| LockFlow.FirstOfLockables | workflows/src/main/kotlin/com/template/flows/Lock.kt:49-63 | The head of the one-pass filter is the first qualifying coin of the vault. |
| LockFlow.TwoFiltersAreOne | workflows/src/main/kotlin/com/template/flows/Lock.kt:42-49 | Filtering by owner and asset and then by amount is one filter by all three. |
| LockFlow.AcceptorSignsBuilt | workflows/src/main/kotlin/com/template/flows/Lock.kt:98-101 | The receiver signs every lock the initiator builds. |
| LockFlow.BuiltLockAcceptedIff | workflows/src/main/kotlin/com/template/flows/Lock.kt:42-64 | For two distinct parties, an allowed asset, a positive amount and coins shared by the two, the validator accepts the built lock exactly when its locktime is after `now`. |
| LockFlow.LockAsWrittenAcceptedIff | workflows/src/main/kotlin/com/template/flows/Lock.kt:59 | As written, the lock is accepted only when the duration, read as an absolute time, is after `now`. |
| LockFlow.LockAsWrittenRejectedAfter2038 | workflows/src/main/kotlin/com/template/flows/Lock.kt:59 | As written, no lock is accepted once the clock is past the largest `Int`, that is, after January 2038. |
| LockFlow.LockCorrectedAcceptedIff | workflows/src/main/kotlin/com/template/flows/Lock.kt:59 | With locktime `now + lockDuration`, the lock is accepted exactly when the duration is positive. |
| UnlockFlow.ClaimedConstructionSucceeds | workflows/src/main/kotlin/com/template/flows/Unlock.kt:48 | The coin the flow creates (owner the initiator, participants `[counterparty, me]`) always passes construction. |
| UnlockFlow.BuildUnlock | workflows/src/main/kotlin/com/template/flows/Unlock.kt:35-53 | The flow fails with the lookup count unless exactly one escrow has the `linearId`. A built unlock reveals a secret whose hash is the committed one and pays the escrow's asset and amount to the initiator. |
| UnlockFlow.BuildUnlockCorrected | workflows/src/main/kotlin/com/template/flows/Unlock.kt:35-53 | As `BuildUnlock`, but the transaction consumes the escrow and creates the same escrow carrying the secret. |
| UnlockFlow.UnlockOutcome | workflows/src/main/kotlin/com/template/flows/Unlock.kt:35-53 | The flow fails unless the lookup finds exactly one escrow and the secret matches its hash. It then consumes the escrow with the secret, pays its amount to the initiator, and the initiator and the sender sign an Unlock. |
| UnlockFlow.UnlockAsWrittenRejected | workflows/src/main/kotlin/com/template/flows/Unlock.kt:48-53 | As written, the validator rejects every transaction the flow builds, because an Unlock must create an escrow. |
| UnlockFlow.AcceptorSignsBuilt | workflows/src/main/kotlin/com/template/flows/Unlock.kt:87-97 | The sender signs what the flow builds as written. |
| UnlockFlow.AcceptorRefusesCorrected | workflows/src/main/kotlin/com/template/flows/Unlock.kt:87-88 | The acceptor refuses the escrow-to-escrow transaction the validator would accept, because its output is not a coin. |
| UnlockFlow.UnlockCorrectedAccepted | workflows/src/main/kotlin/com/template/flows/Unlock.kt:44 | Consuming the escrow and creating it with the secret: for an escrow with no secret, before expiry, the flow succeeds exactly when the secret matches, and the validator then accepts. |
| ConvertFlow.ConvertOutcome | workflows/src/main/kotlin/com/template/flows/Convert.kt:35-51 | The flow fails unless the lookup finds exactly one escrow and the initiator is among its participants. It then consumes the escrow and creates a coin of its asset, amount and participants for the initiator. |
| ConvertFlow.BuildConvert | workflows/src/main/kotlin/com/template/flows/Convert.kt:35-51 | The flow fails with the lookup count unless exactly one escrow has the `linearId`. A built conversion needs the initiator among the escrow's participants, consumes that escrow and creates one coin owned by the initiator. |
| ConvertFlow.AcceptorSignsBuilt | workflows/src/main/kotlin/com/template/flows/Convert.kt:86-96 | The counterparty signs every conversion the initiator builds. |
| ConvertFlow.BuiltConvertAcceptedIff | workflows/src/main/kotlin/com/template/flows/Convert.kt:43-51 | For an escrow of an allowed asset, with a positive amount and shared by the two signers, the built conversion is accepted exactly when either holds: before expiry, the escrow has a valid secret and the initiator is its receiver; from expiry on, the initiator is its sender. |
| Scenarios.MintThenBurn | workflows/src/test/kotlin/com/template/FlowTests.kt:73-77 | Minting 0.04 BTC and burning it: both transactions are accepted. |
| Scenarios.MintThenTransfer | workflows/src/test/kotlin/com/template/FlowTests.kt:80-85 | Minting 1.304 DASH and transferring 1.004 DASH of it: both are accepted. |
| Scenarios.LockThenRefund | workflows/src/test/kotlin/com/template/FlowTests.kt:107-122 | Locking 0.81 BTC for two seconds with the corrected locktime is accepted, and two seconds later the sender's refund is accepted. The lock as written is rejected at any time from 2 on. |
| Scenarios.LockOnMinted | workflows/src/test/kotlin/com/template/FlowTests.kt:88-92 | Locking a freshly minted coin for its whole amount succeeds, and with the corrected flow, which commits to the given hash, it is accepted. |
| Scenarios.LockUnlockConvert | workflows/src/test/kotlin/com/template/FlowTests.kt:88-104 | With the test's inputs (the lock given `hash(secret)`, the unlock given `secret`) and the corrected flows, locking 21.084 DASH for ten seconds, revealing the secret a second later and converting are each accepted, and the receiver ends up owning the coins. The Unlock as written is rejected. |
| Scenarios.LockUnlockAsWritten | workflows/src/test/kotlin/com/template/FlowTests.kt:88-97 | With the test's inputs and the lock as written, the escrow commits to the hash of the hash, so the unlock succeeds only if SHA-256 gives the secret and its own hash the same digest. |

## Left out

- Flow plumbing is not modelled: notary lookup, signing, `CollectSignaturesFlow`, `FinalityFlow`, sessions, `progressTracker` steps and logging. The acceptors are modelled only as their `checkTransaction` predicates.
- workflows/src/main/kotlin/com/template/flows/SignFinalize.kt and workflows/src/main/kotlin/com/template/flows/Constants.kt are not part of this model: they hold only that plumbing and log helpers.
- Vault queries are given as input sequences: the unconsumed, relevant states of one type, in the order the vault returns them.
- SHA-256 itself, the UTF-8 encoding of the message and signature cryptography are not modelled. The digest is an unspecified function of the string, and a party's key is an injective function of the party.
- `Instant.now()` is a parameter, so time never passes inside one check. Only the flow tests' sequences of steps relate different times.
- The `Long` locktime is an unbounded `int`. Only its comparisons matter to the validators, and the corrected lock adds a duration to it.
- The `toString` renderings of UTXO and HTLC (float division, `Instant` formatting) and `HTLC.toStateAndRef` are not modelled.
- contracts/src/main/kotlin/com/template/states/FungibleAsset.kt redeclares `Asset` and the fungible interface. It is folded into the one asset abstraction, with `amount` of type `Int` as UTXO and HTLC implement it. The check "all states are FungibleToken" at UTXOContract.kt:42 is read as "every state is a UTXO or an HTLC", which the state type guarantees, so that requirement always holds.
- A command value of neither contract cannot be named in the model. The `else` branches of the `when` dispatches are unreachable.
- UnlockFlow's input is the escrow copied with the secret. The ledger would resolve the input reference to the stored escrow, which has no secret; this is not modelled. Either way, the validator rejects the transaction because its output is a coin.
- The undefined `HASH` called at Lock.kt:59 is read as `HTLC.hash` in the flow as written (`LockFlow.BuildLock`). Every caller in the flow tests passes a hash already, so the corrected flow (`LockFlow.BuildLockCorrected`) commits to its argument as given; see Findings.
- ConvertFlow's warning log for an escrow that cannot yet be converted has no effect on the transaction and is not modelled.
- TransferFlow.PickEnoughCoins: requires `|acc| <= |inputs|`, which every call from the flow meets (it starts from an empty `acc` and grows it one candidate at a time).

## Findings

| source | as written | input that shows it | evidently intended | confidence | as-written member | corrected member |
|---|---|---|---|---|---|---|
| contracts/src/main/kotlin/com/template/contracts/UTXOContract.kt:38-46 | The conservation check adds the amounts with `sum()`. With `amount` of type `Int`, as UTXO and HTLC declare it (see the FungibleAsset line under Left out), the sums wrap around at 2^31. The cast at UTXOContract.kt:34-35 is to FungibleToken, whose `amount` is a `Long` (FungibleToken.kt:8); read that way, the wrap needs sums beyond 2^63. | A Transfer of one DASH coin of 1 into coins of 2147483647, 2147483647 and 3, all with the same two participants and signed by both. Both sums wrap to 1, so the check accepts, creating 2^32 units. | Inputs and outputs carry the same total value. | not executed | UtxoContractProperties.OverflowCreatesValue | UtxoContractProperties.ValidateIffAdmissible |
| contracts/src/main/kotlin/com/template/contracts/HTLCContract.kt:100-101 | `isValidHash` requires 32 characters. | Any message: `HTLC.hash` always yields 64 lowercase hex characters, so no hash passes. | A 64-character lowercase hex string, the rendering of a SHA-256 digest. | not executed | HtlcContract.IsValidHashRejectsEveryHash | HtlcContract.IsValidSha256HexIffRendering |
| workflows/src/main/kotlin/com/template/flows/Lock.kt:59 | The lock duration is stored as the absolute locktime. | `lockDuration` 2, as in the flow test at FlowTests.kt:107-122, at any `now` of 2 or later: the locktime 2 is not after `now`, so the validator rejects the lock. | The escrow expires `lockDuration` seconds after the current time. | not executed | LockFlow.LockAsWrittenAcceptedIff | LockFlow.LockCorrectedAcceptedIff |
| workflows/src/main/kotlin/com/template/flows/Unlock.kt:48-53 | Unlock turns the escrow into a coin. | Any escrow and matching secret: the validator's Unlock needs an escrow output (UTXOContract.kt:93), so it rejects every transaction the flow builds. | Consume the escrow and create it again with the secret, as the validator and the test at FlowTests.kt:147-149 expect. | not executed | UnlockFlow.UnlockAsWrittenRejected | UnlockFlow.UnlockCorrectedAccepted |
| workflows/src/main/kotlin/com/template/flows/Lock.kt:59 | The escrow commits to `HASH(secret)` of the flow's `secret` argument. | The test at FlowTests.kt:88-97 locks with `HTLC.hash("before_locktime")` and unlocks with `"before_locktime"`. The escrow holds the hash of the hash, so `withSecret` at Unlock.kt:44 fails unless SHA-256 gives the secret and its own hash the same digest. | The escrow commits to the hash the caller passes, as the tests and the swap at FlowTests.kt:128-150 use it. | not executed | Scenarios.LockUnlockAsWritten | Scenarios.LockUnlockConvert |

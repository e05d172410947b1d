/** The deprecated HTLCContract: a second validator for one-input, one-output
    escrow transactions, under its own Lock and Unlock commands. Its
    `isValidHash` helper, never called, is modelled with the length it checks
    (32) beside the length a SHA-256 rendering has (64). */
module HtlcContract {
  import opened Wrappers
  import opened Ledger
  import opened Assets
  import opened Hashing
  import opened UtxoState
  import opened HtlcState
  import opened Transactions

  /** One constructor per requirement, in the order they are checked. */
  datatype Violation =
    | NotSingleCommand                // requireSingleCommand<Commands>() and <Commands.Lock/Unlock>()
    | NotOneInput                     // "Exactly one input state must be consumed"
    | NotOneOutput                    // "Exactly one output state must be created"
    | ParticipantsChanged             // "Participants must not be changed"
    | MissingSignature                // "All participants must sign the transaction"
    | NoSingleInputOfType             // inputsOfType<T>().single() fails
    | NoSingleOutputOfType            // outputsOfType<T>().single() fails
    | SenderNotOwner                  // "Sender must be the owner of UTXO"
    | ReceiverIsOwner                 // "Receiver must not be the owner of UTXO"
    | ReceiverNotParticipant          // "Receiver must be among participants"
    | AssetNotAllowed                 // "Must be valid input and output assets"
    | AssetsDiffer                    // "Assets to lock (unlock) must share the same network"
    | AmountsUnequalOrNotPositive     // "Input and output amount must be equal and positive"
    | SecretShared                    // "Secret must not be shared on locking", in verifyLock
    | LocktimeNotAfterNow             // "Locktime must be after the current time"
    | SecretMissing                   // the same secret message in verifyUnlock, which wants a secret

  /** The commands of this contract, in order. */
  function ContractCommands(cs: seq<Command>): (r: seq<Command>)
    ensures forall x :: x in r <==> x in cs && x.value.HtlcCmd?
  {
    HtlcCommands(cs)
  }

  /** The commands of this contract whose value is `c`. */
  function CommandsOf(cs: seq<Command>, c: HtlcCommand): (r: seq<Command>)
    ensures forall x :: x in r <==> x in cs && x.value == HtlcCmd(c)
  {
    if cs == [] then []
    else (if cs[0].value == HtlcCmd(c) then [cs[0]] else []) + CommandsOf(cs[1..], c)
  }

  function VerifyLock(tx: Transaction, now: int): (r: Result<(), Violation>)
    ensures r.Ok? ==> |CommandsOf(tx.commands, HtlcLock)| == 1
    ensures r.Ok? && |tx.inputs| == 1 && |tx.outputs| == 1 ==>
      tx.inputs[0].Utxo? && tx.outputs[0].Htlc? && LockRules(tx.inputs[0].utxo, tx.outputs[0].htlc, now)
  {
    var ins := UtxosOf(tx.inputs);
    var outs := HtlcsOf(tx.outputs);
    if |ins| != 1 then Err(NoSingleInputOfType)
    else if |outs| != 1 then Err(NoSingleOutputOfType)
    else if |CommandsOf(tx.commands, HtlcLock)| != 1 then Err(NotSingleCommand)
    else
      var input, output := ins[0], outs[0];
      if input.owner != output.sender then Err(SenderNotOwner)
      else if input.owner == output.receiver then Err(ReceiverIsOwner)
      else if output.receiver !in input.participants then Err(ReceiverNotParticipant)
      else if !(IsAvailable(input.asset) && IsAvailable(output.asset)) then Err(AssetNotAllowed)
      else if input.asset != output.asset then Err(AssetsDiffer)
      else if !(input.amount == output.amount && input.amount > 0) then Err(AmountsUnequalOrNotPositive)
      else if output.secret.Some? then Err(SecretShared)
      else if !(output.locktime > now) then Err(LocktimeNotAfterNow)
      else Ok(())
  }

  /** The repeated asset and amount checks of the source are kept; they can
      only fail where the first occurrence already did. */
  function VerifyUnlock(tx: Transaction): (r: Result<(), Violation>)
    ensures r.Ok? ==> |CommandsOf(tx.commands, HtlcUnlock)| == 1
    ensures r.Ok? && |tx.inputs| == 1 && |tx.outputs| == 1 ==>
      tx.inputs[0].Htlc? && tx.outputs[0].Utxo? && UnlockRules(tx.inputs[0].htlc, tx.outputs[0].utxo)
  {
    var ins := HtlcsOf(tx.inputs);
    var outs := UtxosOf(tx.outputs);
    if |ins| != 1 then Err(NoSingleInputOfType)
    else if |outs| != 1 then Err(NoSingleOutputOfType)
    else if |CommandsOf(tx.commands, HtlcUnlock)| != 1 then Err(NotSingleCommand)
    else
      var input, output := ins[0], outs[0];
      if input.asset != output.asset then Err(AssetsDiffer)
      else if !(input.amount == output.amount && input.amount > 0) then Err(AmountsUnequalOrNotPositive)
      else if input.receiver !in input.participants then Err(ReceiverNotParticipant)
      else if !(IsAvailable(input.asset) && IsAvailable(output.asset)) then Err(AssetNotAllowed)
      else if input.asset != output.asset then Err(AssetsDiffer)
      else if !(input.amount == output.amount && input.amount > 0) then Err(AmountsUnequalOrNotPositive)
      else if input.secret.None? then Err(SecretMissing)
      else Ok(())
  }

  /** HTLCContract's `verify(tx)` at time `now`. */
  function Verify(tx: Transaction, now: int): (r: Result<(), Violation>)
    ensures r.Ok? ==> |ContractCommands(tx.commands)| == 1
    ensures r.Ok? ==> |tx.inputs| == 1 && |tx.outputs| == 1
    ensures r.Ok? ==> Participants(tx.inputs[0]) == Participants(tx.outputs[0])
    ensures r.Ok? ==> forall p :: p in Participants(tx.inputs[0]) ==>
                        OwningKey(p) in ContractCommands(tx.commands)[0].signers
    ensures r.Ok? && ContractCommands(tx.commands)[0].value.htlcCmd == HtlcLock ==>
      tx.inputs[0].Utxo? && tx.outputs[0].Htlc? && LockRules(tx.inputs[0].utxo, tx.outputs[0].htlc, now)
    ensures r.Ok? && ContractCommands(tx.commands)[0].value.htlcCmd == HtlcUnlock ==>
      tx.inputs[0].Htlc? && tx.outputs[0].Utxo? && UnlockRules(tx.inputs[0].htlc, tx.outputs[0].utxo)
  {
    var cmds := ContractCommands(tx.commands);
    if |cmds| != 1 then Err(NotSingleCommand)
    else if |tx.inputs| != 1 then Err(NotOneInput)
    else if |tx.outputs| != 1 then Err(NotOneOutput)
    else
      var input, output := tx.inputs[0], tx.outputs[0];
      if Participants(input) != Participants(output) then Err(ParticipantsChanged)
      else if !ContainsAll(cmds[0].signers, OwningKeys(Participants(input))) then Err(MissingSignature)
      else
        match cmds[0].value.htlcCmd
        case HtlcLock => VerifyLock(tx, now)
        case HtlcUnlock => VerifyUnlock(tx)
  }

  /** What an accepted Lock promises of its UTXO input and HTLC output. */
  predicate LockRules(input: UTXO, output: HTLC, now: int)
  {
    && input.owner == output.sender
    && output.receiver != input.owner
    && output.receiver in input.participants
    && (input.asset == BTC || input.asset == DASH)
    && input.asset == output.asset
    && input.amount == output.amount && input.amount > 0
    && output.secret.None?
    && output.locktime > now
  }

  /** What an accepted Unlock promises of its HTLC input and UTXO output. No
      time, owner or hash requirement is among them. */
  predicate UnlockRules(input: HTLC, output: UTXO)
  {
    && (input.asset == BTC || input.asset == DASH)
    && input.asset == output.asset
    && input.amount == output.amount && input.amount > 0
    && input.receiver in input.participants
    && input.secret.Some?
  }

  /** `isValidHash(hash)` as written: 32 lowercase hex characters. */
  predicate IsValidHash(hash: string)
    ensures IsValidHash(hash) ==> forall msg :: Hash(msg) != hash
  {
    |hash| == 32 && forall i :: 0 <= i < |hash| ==> IsLowerHexDigit(hash[i])
  }

  /** The check as intended: the 64 characters of a SHA-256 rendering. */
  predicate IsValidSha256Hex(hash: string)
  {
    |hash| == 64 && forall i :: 0 <= i < |hash| ==> IsLowerHexDigit(hash[i])
  }

  /** As written, no hash the states could carry passes `isValidHash`. */
  lemma IsValidHashRejectsEveryHash(msg: string)
    ensures !IsValidHash(Hash(msg))
  {
    HashShape(msg);
  }

  /** As intended, a string passes exactly when it is the rendering of some
      digest, which covers every `hash(secret)`. */
  lemma IsValidSha256HexIffRendering(hash: string)
    ensures IsValidSha256Hex(hash) <==> exists d: Digest :: Hex(d) == hash
    ensures forall msg :: IsValidSha256Hex(Hash(msg))
  {
    if IsValidSha256Hex(hash) {
      assert HexShapeOk(hash);
      HexUnhex(hash);
      var d: Digest := Unhex(hash);
      assert Hex(d) == hash;
    }
    forall d: Digest | Hex(d) == hash ensures IsValidSha256Hex(hash) {
      HexShape(d);
    }
    forall msg ensures IsValidSha256Hex(Hash(msg)) {
      HashShape(msg);
    }
  }

  /** For states that satisfy their invariants, an accepted Unlock carries a
      secret that hashes to the committed hash. */
  lemma UnlockWellFormedHasValidSecret(tx: Transaction, now: int)
    requires WellFormed(tx)
    requires Verify(tx, now).Ok? && ContractCommands(tx.commands)[0].value.htlcCmd == HtlcUnlock
    ensures tx.inputs[0].Htlc? && IsSecretValid(tx.inputs[0].htlc)
  {
    assert tx.inputs[0] in tx.inputs;
  }
}

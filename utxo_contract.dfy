/** UTXOContract's `verify`: the accept/reject check every transaction on the
    value and escrow states must pass. It runs the global checks in source
    order, then the checks of the transaction's one command; the result is the
    first broken requirement. The clock read `Instant.now().epochSecond` is the
    parameter `now`.

    The conservation check sums the states' amounts, which UTXO and HTLC
    declare as 32-bit `Int`s, so the sums wrap (the interface the states are
    cast to declares a `Long`; the model follows the states' own `Int`).
    `Verify(tx, now, Int32Wrapping)` is the check as written;
    `Validate(tx, now)`, which sums exactly, is the check as intended and the
    one the rest of the model uses. */
module UtxoContract {
  import opened Wrappers
  import opened Ledger
  import opened Assets
  import opened Hashing
  import opened UtxoState
  import opened HtlcState
  import opened Transactions

  /** How the amounts of the inputs and of the outputs are added up. */
  datatype Arithmetic = Int32Wrapping | Exact

  /** One constructor per requirement of `verify`, in the order they are checked. */
  datatype Violation =
    | NotSingleCommand                // requireSingleCommand<Commands>()
    | NoStates                        // allStates.first() on an empty list
    | ParticipantsDiffer              // "Participants must appear same in all inputs and outputs"
    | MissingSignature                // "All participants must sign the transaction"
    | AssetsDiffer                    // "All inputs and outputs must use the same asset"
    | AssetNotAllowed                 // "Only the following assets are allowed"
    | NonPositiveAmount               // "All amounts must be positive"
    | AmountsNotConserved             // "For any command except Mint and Burn ..."
    | NotOneInput                     // "Exactly one input state must be consumed"
    | NotOneOutput                    // "Exactly one output state must be created"
    | MintHasInputs                   // "No input states must be consumed"
    | MintNotOneOutput                // "Only one output state must be created"
    | NoSingleInputOfType             // inputsOfType<T>().single() fails
    | NoSingleOutputOfType            // outputsOfType<T>().single() fails
    | MintOwnerNotParticipant         // "Owner must be among participants"
    | BurnHasOutputs                  // "No output states must be created"
    | TransferWithoutUtxos            // "Transaction must contain at least 1 input and 1 output of UTXO"
    | NewOwnerNotParticipant          // "New owners must be one of participants"
    | SenderNotOwner                  // "Sender must be the owner of UTXO"
    | ReceiverIsOwner                 // "Receiver must not be the owner of UTXO"
    | ReceiverNotParticipant          // "Receiver must be among participants"
    | SecretSharedOnLock              // "Secret must not be shared on locking"
    | LocktimeNotAfterNow             // "Locktime must be after the current time"
    | InvalidCopy(e: HtlcError)       // output.withoutSecret() fails its init block
    | FieldsChanged                   // "All fields, except secret, must remain the same"
    | LocktimeReached                 // "Locktime is reached, coins can only be taken by sender ..."
    | InvalidSecret                   // "Valid secret must be provided to claim assets"
    | NoValidSecretBeforeLocktime     // "Valid secret must be provided to claim assets before locktime"
    | NotReceiverBeforeLocktime       // "Only receiver is able to claim assets before locktime"
    | NotSenderAfterLocktime          // "Only sender is able to claim assets after locktime"

  function AllStates(tx: Transaction): seq<State>
  {
    tx.inputs + tx.outputs
  }

  /** The transaction has exactly one UTXOContract command. */
  predicate HasSingleCommand(tx: Transaction)
  {
    |UtxoCommands(tx.commands)| == 1
  }

  /** That command. */
  function TheCommand(tx: Transaction): Command
    requires HasSingleCommand(tx)
  {
    UtxoCommands(tx.commands)[0]
  }

  /** Commands that move one escrow-related state to one other. */
  predicate IsLockCmd(c: UtxoCommand)
  {
    c == Lock || c == Unlock || c == Convert
  }

  /** Commands allowed to create or destroy value. */
  predicate AllowNonEqual(c: UtxoCommand)
  {
    c == Mint || c == Burn
  }

  /** The conservation test `inSum == outSum`, under the chosen arithmetic. */
  predicate SumsEqual(arith: Arithmetic, tx: Transaction)
  {
    match arith
    case Int32Wrapping => SumInt32(Amounts(tx.inputs)) == SumInt32(Amounts(tx.outputs))
    case Exact => Sum(Amounts(tx.inputs)) == Sum(Amounts(tx.outputs))
  }

  /** Every state has the participant list `part`, compared as a list. */
  predicate SameParticipants(ss: seq<State>, part: seq<Party>)
  {
    forall s :: s in ss ==> Participants(s) == part
  }

  predicate SameAsset(ss: seq<State>, asset: Asset)
  {
    forall s :: s in ss ==> AssetOf(s) == asset
  }

  predicate AllPositive(ss: seq<State>)
  {
    forall s :: s in ss ==> AmountOf(s) > 0
  }

  /** The requirements checked before dispatching on the command. */
  function GlobalChecks(tx: Transaction, cmd: UtxoCommand, signers: seq<PublicKey>, arith: Arithmetic): (r: Result<(), Violation>)
    ensures r == Err(NoStates) <==> AllStates(tx) == []
    ensures r.Ok? ==>
      && AllStates(tx) != []
      && var first := AllStates(tx)[0];
         && (forall s :: s in AllStates(tx) ==>
               Participants(s) == Participants(first) && AssetOf(s) == AssetOf(first) && AmountOf(s) > 0)
         && ContainsAll(signers, OwningKeys(Participants(first)))
         && IsAvailable(AssetOf(first))
    ensures r.Ok? && !AllowNonEqual(cmd) ==> SumsEqual(arith, tx)
    ensures r.Ok? && IsLockCmd(cmd) ==> |tx.inputs| == 1 && |tx.outputs| == 1
  {
    var all := AllStates(tx);
    if all == [] then Err(NoStates)
    else
      var part := Participants(all[0]);
      var asset := AssetOf(all[0]);
      if !SameParticipants(all, part) then Err(ParticipantsDiffer)
      else if !ContainsAll(signers, OwningKeys(part)) then Err(MissingSignature)
      else if !SameAsset(all, asset) then Err(AssetsDiffer)
      else if !IsAvailable(asset) then Err(AssetNotAllowed)
      else if !AllPositive(all) then Err(NonPositiveAmount)
      else if !(AllowNonEqual(cmd) || SumsEqual(arith, tx)) then Err(AmountsNotConserved)
      else if IsLockCmd(cmd) && |tx.inputs| != 1 then Err(NotOneInput)
      else if IsLockCmd(cmd) && |tx.outputs| != 1 then Err(NotOneOutput)
      else Ok(())
  }

  function VerifyMint(tx: Transaction): (r: Result<(), Violation>)
    ensures r.Ok? ==>
      tx.inputs == [] && |tx.outputs| == 1 && tx.outputs[0].Utxo?
      && tx.outputs[0].utxo.owner in tx.outputs[0].utxo.participants
  {
    if |tx.inputs| != 0 then Err(MintHasInputs)
    else if |tx.outputs| != 1 then Err(MintNotOneOutput)
    else
      var outs := UtxosOf(tx.outputs);
      if |outs| != 1 then Err(NoSingleOutputOfType)
      else if outs[0].owner !in outs[0].participants then Err(MintOwnerNotParticipant)
      else Ok(())
  }

  function VerifyBurn(tx: Transaction): (r: Result<(), Violation>)
    ensures r.Ok? <==> tx.outputs == []
  {
    if |tx.outputs| != 0 then Err(BurnHasOutputs) else Ok(())
  }

  function VerifyTransfer(tx: Transaction): (r: Result<(), Violation>)
    ensures r.Ok? ==>
      (exists u :: Utxo(u) in tx.inputs) && (exists u :: Utxo(u) in tx.outputs)
      && forall u :: Utxo(u) in tx.outputs ==> u.owner in UtxosOf(tx.inputs)[0].participants
  {
    var ins := UtxosOf(tx.inputs);
    var outs := UtxosOf(tx.outputs);
    if ins == [] || outs == [] then Err(TransferWithoutUtxos)
    else
      assert Utxo(ins[0]) in tx.inputs && Utxo(outs[0]) in tx.outputs;
      if !(forall u :: u in outs ==> u.owner in ins[0].participants) then Err(NewOwnerNotParticipant)
      else Ok(())
  }

  function VerifyLock(tx: Transaction, now: int): (r: Result<(), Violation>)
    ensures r.Ok? && |tx.inputs| == 1 && |tx.outputs| == 1 ==>
      tx.inputs[0].Utxo? && tx.outputs[0].Htlc? && LockRules(tx.inputs[0].utxo, tx.outputs[0].htlc, now)
  {
    var ins := UtxosOf(tx.inputs);
    var outs := HtlcsOf(tx.outputs);
    if |ins| != 1 then Err(NoSingleInputOfType)
    else if |outs| != 1 then Err(NoSingleOutputOfType)
    else
      var input, output := ins[0], outs[0];
      if input.owner != output.sender then Err(SenderNotOwner)
      else if input.owner == output.receiver then Err(ReceiverIsOwner)
      else if output.receiver !in input.participants then Err(ReceiverNotParticipant)
      else if output.secret.Some? then Err(SecretSharedOnLock)
      else if !(output.locktime > now) then Err(LocktimeNotAfterNow)
      else Ok(())
  }

  function VerifyUnlock(tx: Transaction, now: int): (r: Result<(), Violation>)
    ensures r.Ok? && |tx.inputs| == 1 && |tx.outputs| == 1 ==>
      tx.inputs[0].Htlc? && tx.outputs[0].Htlc? && UnlockRules(tx.inputs[0].htlc, tx.outputs[0].htlc, now)
  {
    var ins := HtlcsOf(tx.inputs);
    var outs := HtlcsOf(tx.outputs);
    if |ins| != 1 then Err(NoSingleInputOfType)
    else if |outs| != 1 then Err(NoSingleOutputOfType)
    else
      var input, output := ins[0], outs[0];
      match WithoutSecret(output)
      case Err(e) => Err(InvalidCopy(e))
      case Ok(noSecret) =>
        if input != noSecret then Err(FieldsChanged)
        else if !(now < input.locktime) then Err(LocktimeReached)
        else if !IsSecretValid(output) then Err(InvalidSecret)
        else Ok(())
  }

  function VerifyConvert(tx: Transaction, now: int): (r: Result<(), Violation>)
    ensures r.Ok? && |tx.inputs| == 1 && |tx.outputs| == 1 ==>
      tx.inputs[0].Htlc? && tx.outputs[0].Utxo? && ConvertRules(tx.inputs[0].htlc, tx.outputs[0].utxo, now)
  {
    var ins := HtlcsOf(tx.inputs);
    var outs := UtxosOf(tx.outputs);
    if |ins| != 1 then Err(NoSingleInputOfType)
    else if |outs| != 1 then Err(NoSingleOutputOfType)
    else
      var input, output := ins[0], outs[0];
      if now < input.locktime then
        if !IsSecretValid(input) then Err(NoValidSecretBeforeLocktime)
        else if input.receiver != output.owner then Err(NotReceiverBeforeLocktime)
        else Ok(())
      else if input.sender != output.owner then Err(NotSenderAfterLocktime)
      else Ok(())
  }

  /** `verify(tx)` at time `now`, summing under `arith`. */
  function Verify(tx: Transaction, now: int, arith: Arithmetic): (r: Result<(), Violation>)
    // exactly one command of this contract, and at least one state
    ensures r.Ok? ==> HasSingleCommand(tx) && AllStates(tx) != []
    // every state has the first state's participant list, and they all signed
    ensures r.Ok? ==>
      var part := Participants(AllStates(tx)[0]);
      && SameParticipants(AllStates(tx), part)
      && forall p :: p in part ==> OwningKey(p) in TheCommand(tx).signers
    // one available asset, positive amounts
    ensures r.Ok? ==>
      && SameAsset(AllStates(tx), AssetOf(AllStates(tx)[0]))
      && (AssetOf(AllStates(tx)[0]) == BTC || AssetOf(AllStates(tx)[0]) == DASH)
      && AllPositive(AllStates(tx))
    ensures r.Ok? && !AllowNonEqual(TheCommand(tx).value.utxoCmd) ==> SumsEqual(arith, tx)
    ensures r.Ok? && IsLockCmd(TheCommand(tx).value.utxoCmd) ==> |tx.inputs| == 1 && |tx.outputs| == 1
    // the command-specific requirements
    ensures r.Ok? && TheCommand(tx).value.utxoCmd == Mint ==>
      tx.inputs == [] && |tx.outputs| == 1 && tx.outputs[0].Utxo?
      && tx.outputs[0].utxo.owner in tx.outputs[0].utxo.participants
    ensures r.Ok? && TheCommand(tx).value.utxoCmd == Burn ==> tx.outputs == []
    ensures r.Ok? && TheCommand(tx).value.utxoCmd == Transfer ==>
      UtxosOf(tx.inputs) != [] && UtxosOf(tx.outputs) != []
      && forall u :: u in UtxosOf(tx.outputs) ==> u.owner in UtxosOf(tx.inputs)[0].participants
    ensures r.Ok? && TheCommand(tx).value.utxoCmd == Lock ==>
      tx.inputs[0].Utxo? && tx.outputs[0].Htlc? && LockRules(tx.inputs[0].utxo, tx.outputs[0].htlc, now)
    ensures r.Ok? && TheCommand(tx).value.utxoCmd == Unlock ==>
      tx.inputs[0].Htlc? && tx.outputs[0].Htlc? && UnlockRules(tx.inputs[0].htlc, tx.outputs[0].htlc, now)
    ensures r.Ok? && TheCommand(tx).value.utxoCmd == Convert ==>
      tx.inputs[0].Htlc? && tx.outputs[0].Utxo? && ConvertRules(tx.inputs[0].htlc, tx.outputs[0].utxo, now)
  {
    var cmds := UtxoCommands(tx.commands);
    if |cmds| != 1 then Err(NotSingleCommand)
    else
      var cmd := cmds[0].value.utxoCmd;
      match GlobalChecks(tx, cmd, cmds[0].signers, arith)
      case Err(v) => Err(v)
      case Ok(_) => CommandChecks(tx, cmd, now)
  }

  /** The `when (command.value)` dispatch to the checks of one command. */
  function CommandChecks(tx: Transaction, cmd: UtxoCommand, now: int): (r: Result<(), Violation>)
    requires IsLockCmd(cmd) ==> |tx.inputs| == 1 && |tx.outputs| == 1
    ensures r.Ok? && cmd == Mint ==>
      tx.inputs == [] && |tx.outputs| == 1 && tx.outputs[0].Utxo?
      && tx.outputs[0].utxo.owner in tx.outputs[0].utxo.participants
    ensures r.Ok? && cmd == Burn ==> tx.outputs == []
    ensures r.Ok? && cmd == Transfer ==>
      UtxosOf(tx.inputs) != [] && UtxosOf(tx.outputs) != []
      && forall u :: u in UtxosOf(tx.outputs) ==> u.owner in UtxosOf(tx.inputs)[0].participants
    ensures r.Ok? && cmd == Lock ==>
      tx.inputs[0].Utxo? && tx.outputs[0].Htlc? && LockRules(tx.inputs[0].utxo, tx.outputs[0].htlc, now)
    ensures r.Ok? && cmd == Unlock ==>
      tx.inputs[0].Htlc? && tx.outputs[0].Htlc? && UnlockRules(tx.inputs[0].htlc, tx.outputs[0].htlc, now)
    ensures r.Ok? && cmd == Convert ==>
      tx.inputs[0].Htlc? && tx.outputs[0].Utxo? && ConvertRules(tx.inputs[0].htlc, tx.outputs[0].utxo, now)
  {
    match cmd
    case Mint => VerifyMint(tx)
    case Burn => VerifyBurn(tx)
    case Transfer => VerifyTransfer(tx)
    case Lock => VerifyLock(tx, now)
    case Unlock => VerifyUnlock(tx, now)
    case Convert => VerifyConvert(tx, now)
  }

  /** The transition validator as intended: `verify` with exact sums. */
  function Validate(tx: Transaction, now: int): (r: Result<(), Violation>)
    ensures r.Ok? ==> HasSingleCommand(tx)
    ensures r.Ok? && !AllowNonEqual(TheCommand(tx).value.utxoCmd) ==>
      Sum(Amounts(tx.inputs)) == Sum(Amounts(tx.outputs))
  {
    Verify(tx, now, Exact)
  }

  /** What an accepted Lock promises of its UTXO input and HTLC output. */
  predicate LockRules(input: UTXO, output: HTLC, now: int)
  {
    && output.sender == input.owner
    && output.receiver != input.owner
    && output.receiver in input.participants
    && output.secret.None?
    && output.locktime > now
  }

  /** What an accepted Unlock promises: the output is the input with a secret
      added, and nothing else changed; the input had no secret; it happens
      strictly before the locktime, and the secret is the committed one. */
  predicate UnlockRules(input: HTLC, output: HTLC, now: int)
  {
    && input == output.(secret := None)
    && input.secret.None?
    && now < input.locktime
    && IsSecretValid(output)
  }

  /** What an accepted Convert promises: before the locktime only the receiver
      can take the coins, and only once a valid secret is on the input; from
      the locktime on only the sender can. */
  predicate ConvertRules(input: HTLC, output: UTXO, now: int)
  {
    if now < input.locktime then IsSecretValid(input) && output.owner == input.receiver
    else output.owner == input.sender
  }
}

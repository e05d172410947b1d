/** What the six flows share: the vault query results they start from, the
    failures they throw, the refusals of their acceptors, the owner-and-asset
    filter they apply to the vault, and the mutable `TransactionBuilder` they
    fill in. A vault query is modelled by the sequence of unconsumed states it
    returns, in order. */
module Flows {
  import opened Wrappers
  import opened Ledger
  import opened Assets
  import opened UtxoState
  import opened HtlcState
  import opened Transactions

  /** The `FlowException`s and construction failures a flow's build step throws. */
  datatype FlowError =
    | NoUtxoFound                                     // "No UTXO found for party ..."
    | InsufficientBalance(required: int, found: int)  // "Insufficient ... balance ..."
    | NoExactAmount                                   // "No UTXO of ... found with exact amount ..."
    | HtlcLookup(count: nat)                          // "Expected to get one HTLC state by UUID, found ..."
    | UtxoInvalid(utxoError: UtxoError)               // a UTXO constructor's `init` block failed
    | HtlcInvalid(htlcError: HtlcError)               // an HTLC constructor or copy failed

  /** The failed `requireThat` of an acceptor's `checkTransaction`. */
  datatype Refusal =
    | InputNotUtxo          // "Input(s) must be UTXO state reference(s)" and the Transfer wording
    | OutputNotUtxo         // "Outputs must be UTXO states", "Output must be UTXO transaction"
    | InputNotHtlc          // "Inputs must be HTLC state references"
    | OutputNotHtlc         // "Outputs must be HTLC states"
    | InputNotOwned         // "Coins can only be transferred / locked / burned by their owner"
    | NotSingleOutput       // `outputs.single()` fails
    | OutputNotInitiator    // "Only the flow initiator can ..." / "Coins can only be minted to ..."

  /** `inputs.filter { owner == me }.filter { asset == asset }`. */
  function MyInputs(vault: seq<UTXO>, me: Party, asset: Asset): (r: seq<UTXO>)
    ensures forall u :: u in r <==> u in vault && u.owner == me && u.asset == asset
    ensures |r| <= |vault|
  {
    if vault == [] then []
    else (if vault[0].owner == me && vault[0].asset == asset then [vault[0]] else []) + MyInputs(vault[1..], me, asset)
  }

  /** The unconsumed HTLCs whose `linearId` is `id`: the linear-state query by UUID. */
  function HtlcsWithId(vault: seq<HTLC>, id: UniqueIdentifier): (r: seq<HTLC>)
    ensures forall h :: h in r <==> h in vault && h.linearId == id
  {
    if vault == [] then []
    else (if vault[0].linearId == id then [vault[0]] else []) + HtlcsWithId(vault[1..], id)
  }

  /** Coins as input states, in order. */
  function AsStates(us: seq<UTXO>): (ss: seq<State>)
    ensures |ss| == |us|
    ensures forall i :: 0 <= i < |us| ==> ss[i] == Utxo(us[i])
  {
    if us == [] then [] else [Utxo(us[0])] + AsStates(us[1..])
  }

  /** The amounts of a list of coins, in order. */
  function CoinAmounts(us: seq<UTXO>): (xs: seq<Int32>)
    ensures |xs| == |us|
    ensures forall i :: 0 <= i < |us| ==> xs[i] == us[i].amount
  {
    if us == [] then [] else [us[0].amount] + CoinAmounts(us[1..])
  }

  lemma AmountsOfStates(us: seq<UTXO>)
    ensures Amounts(AsStates(us)) == CoinAmounts(us)
  {
  }

  /** The coins among a list of coin states are the coins themselves. */
  lemma {:induction false} UtxosOfStates(us: seq<UTXO>)
    ensures UtxosOf(AsStates(us)) == us
  {
    if us != [] {
      assert AsStates(us)[1..] == AsStates(us[1..]);
      UtxosOfStates(us[1..]);
    }
  }

  /** The acceptor's `checkTransaction` shared by UnlockFlow and ConvertFlow:
      HTLC inputs, UTXO outputs, exactly one output, and it goes to the
      initiator. */
  function ClaimAcceptorCheck(tx: Transaction, initiator: Party): (r: Result<(), Refusal>)
    ensures r.Ok? <==>
      && (forall s :: s in tx.inputs ==> s.Htlc?)
      && exists u :: tx.outputs == [Utxo(u)] && u.owner == initiator
  {
    if !(forall s :: s in tx.inputs ==> s.Htlc?) then Err(InputNotHtlc)
    else if !(forall s :: s in tx.outputs ==> s.Utxo?) then Err(OutputNotUtxo)
    else if |tx.outputs| != 1 then Err(NotSingleOutput)
    else if tx.outputs[0].utxo.owner != initiator then Err(OutputNotInitiator)
    else Ok(())
  }

  /** The keys a command is signed with: the initiator's and one other party's. */
  function Signers(me: Party, other: Party): seq<PublicKey>
  {
    [OwningKey(me), OwningKey(other)]
  }

  /** Corda's `TransactionBuilder`: the lists a flow appends inputs, outputs
      and commands to. */
  class TransactionBuilder {
    var inputs: seq<State>
    var outputs: seq<State>
    var commands: seq<Command>

    constructor ()
      ensures inputs == [] && outputs == [] && commands == []
    {
      inputs, outputs, commands := [], [], [];
    }

    /** The transaction the builder currently describes. */
    function ToTransaction(): (tx: Transaction)
      reads this
      ensures tx.inputs == inputs && tx.outputs == outputs && tx.commands == commands
    {
      Transaction(inputs, outputs, commands)
    }

    method AddInputState(s: State)
      modifies this
      ensures inputs == old(inputs) + [s]
      ensures outputs == old(outputs) && commands == old(commands)
    {
      inputs := inputs + [s];
    }

    method AddOutputState(s: State)
      modifies this
      ensures outputs == old(outputs) + [s]
      ensures inputs == old(inputs) && commands == old(commands)
    {
      outputs := outputs + [s];
    }

    method AddCommand(value: CommandValue, signers: seq<PublicKey>)
      modifies this
      ensures commands == old(commands) + [Command(value, signers)]
      ensures inputs == old(inputs) && outputs == old(outputs)
    {
      commands := commands + [Command(value, signers)];
    }

    /** `coins.forEach { builder.addInputState(it) }`. */
    method AddInputCoins(coins: seq<UTXO>)
      modifies this
      ensures inputs == old(inputs) + AsStates(coins)
      ensures outputs == old(outputs) && commands == old(commands)
    {
      var i := 0;
      while i < |coins|
        invariant 0 <= i <= |coins|
        invariant inputs == old(inputs) + AsStates(coins[..i])
        invariant outputs == old(outputs) && commands == old(commands)
      {
        AsStatesSnoc(coins[..i], coins[i]);
        assert coins[..i + 1] == coins[..i] + [coins[i]];
        AddInputState(Utxo(coins[i]));
        i := i + 1;
      }
      assert coins[..i] == coins;
    }
  }

  lemma AsStatesSnoc(us: seq<UTXO>, u: UTXO)
    ensures AsStates(us + [u]) == AsStates(us) + [Utxo(u)]
  {
  }
}

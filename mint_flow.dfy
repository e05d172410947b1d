/** MintFlow: the initiator issues a new coin of `amount` of `asset` to itself,
    shared with `counterparty`, who co-signs after checking that the coin goes
    to the initiator. */
module MintFlow {
  import opened Wrappers
  import opened Ledger
  import opened Assets
  import opened UtxoState
  import opened Transactions
  import opened UtxoContract
  import opened UtxoContractProperties
  import opened Flows

  /** The transaction the initiator builds: no input, the coin
      `UTXO(me, asset, amount, counterparty)` as the only output, and a Mint
      command signed by both. The secondary constructor always succeeds. */
  function BuildMint(me: Party, counterparty: Party, asset: Asset, amount: Int32): (tx: Transaction)
    ensures tx.inputs == [] && |tx.outputs| == 1 && tx.outputs[0].Utxo?
    ensures NewWithCounterparty(me, asset, amount, counterparty) == Ok(tx.outputs[0].utxo)
    ensures tx.outputs[0].utxo.owner == me && tx.outputs[0].utxo.participants == [me, counterparty]
    ensures tx.commands == [Command(UtxoCmd(Mint), [OwningKey(me), OwningKey(counterparty)])]
  {
    Transaction([], [Utxo(UTXO(me, asset, amount, [me, counterparty]))], [Command(UtxoCmd(Mint), Signers(me, counterparty))])
  }

  /** The acceptor's `checkTransaction` run by the counterparty; `initiator`
      is the party on the other end of the session. */
  function AcceptorCheck(tx: Transaction, initiator: Party): (r: Result<(), Refusal>)
    ensures r.Ok? <==> exists u :: tx.outputs == [Utxo(u)] && u.owner == initiator
  {
    if |tx.outputs| != 1 then Err(NotSingleOutput)
    else if !tx.outputs[0].Utxo? then Err(OutputNotUtxo)
    else if tx.outputs[0].utxo.owner != initiator then Err(OutputNotInitiator)
    else Ok(())
  }

  /** The validator accepts the minted coin exactly when the asset is BTC or
      DASH and the amount is positive. */
  lemma BuiltMintAcceptedIff(me: Party, counterparty: Party, asset: Asset, amount: Int32, now: int)
    ensures Validate(BuildMint(me, counterparty, asset, amount), now).Ok? <==> IsAvailable(asset) && amount > 0
  {
    var tx := BuildMint(me, counterparty, asset, amount);
    assert UtxoCommands(tx.commands) == tx.commands by {
      assert tx.commands[1..] == [];
    }
    assert AllStates(tx) == tx.outputs;
    assert Amounts(tx.outputs) == [amount];
    if IsAvailable(asset) && amount > 0 {
      GlobalRulesFrom(tx, Mint, Signers(me, counterparty), [me, counterparty], asset);
    } else {
      assert tx.outputs[0] in AllStates(tx);
    }
    ValidateIffAdmissible(tx, now);
  }

  /** The counterparty signs what the initiator builds, and nothing that mints
      to someone else. */
  lemma AcceptorSignsBuilt(me: Party, counterparty: Party, asset: Asset, amount: Int32, other: Party)
    ensures AcceptorCheck(BuildMint(me, counterparty, asset, amount), me) == Ok(())
    ensures other != me ==> AcceptorCheck(BuildMint(me, counterparty, asset, amount), other) == Err(OutputNotInitiator)
  {
  }
}

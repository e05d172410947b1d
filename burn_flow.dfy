/** BurnFlow: the initiator destroys every coin of `asset` it owns, with
    `counterparty` co-signing after checking that only the initiator's coins
    are consumed. */
module BurnFlow {
  import opened Wrappers
  import opened Ledger
  import opened Assets
  import opened UtxoState
  import opened Transactions
  import opened UtxoContract
  import opened UtxoContractProperties
  import opened Flows

  /** The transaction the initiator builds: all its coins of the asset as
      inputs, no output, a Burn command signed by both parties. */
  function BuildBurn(me: Party, counterparty: Party, asset: Asset, vault: seq<UTXO>): (r: Result<Transaction, FlowError>)
    ensures r.Ok? <==> exists u :: u in vault && u.owner == me && u.asset == asset
    ensures r.Err? ==> r == Err(NoUtxoFound)
    ensures r.Ok? ==> r.value.outputs == [] && |r.value.inputs| >= 1
  {
    var mine := MyInputs(vault, me, asset);
    if mine == [] then Err(NoUtxoFound)
    else Ok(Transaction(AsStates(mine), [], [Command(UtxoCmd(Burn), Signers(me, counterparty))]))
  }

  /** The initiator's `call()` up to signing: the command first, then each
      coin added to the builder in turn. */
  method Initiate(me: Party, counterparty: Party, asset: Asset, vault: seq<UTXO>) returns (r: Result<Transaction, FlowError>)
    ensures r == BuildBurn(me, counterparty, asset, vault)
  {
    var mine := MyInputs(vault, me, asset);
    if mine == [] {
      return Err(NoUtxoFound);
    }
    var builder := new TransactionBuilder();
    builder.AddCommand(UtxoCmd(Burn), Signers(me, counterparty));
    builder.AddInputCoins(mine);
    assert builder.inputs == AsStates(mine);
    assert builder.outputs == [];
    assert builder.commands == [Command(UtxoCmd(Burn), Signers(me, counterparty))];
    r := Ok(builder.ToTransaction());
  }

  /** The acceptor's `checkTransaction` run by the counterparty. */
  function AcceptorCheck(tx: Transaction, initiator: Party): (r: Result<(), Refusal>)
    ensures r.Ok? <==> forall s :: s in tx.inputs ==> s.Utxo? && s.utxo.owner == initiator
  {
    if !(forall s :: s in tx.inputs ==> s.Utxo?) then Err(InputNotUtxo)
    else if !(forall s :: s in tx.inputs ==> s.utxo.owner == initiator) then Err(InputNotOwned)
    else Ok(())
  }

  /** The flow fails exactly when the initiator owns no coin of the asset;
      otherwise exactly the initiator's coins of the asset are consumed, in
      the order the vault query returns them, and nothing is created. */
  lemma BurnOutcome(me: Party, counterparty: Party, asset: Asset, vault: seq<UTXO>)
    ensures BuildBurn(me, counterparty, asset, vault).Err? <==> forall u :: u in vault ==> u.owner != me || u.asset != asset
    ensures BuildBurn(me, counterparty, asset, vault).Ok? ==>
      var tx := BuildBurn(me, counterparty, asset, vault).value;
      && tx.outputs == []
      && tx.inputs == AsStates(MyInputs(vault, me, asset))
      && (forall u :: Utxo(u) in tx.inputs <==> u in vault && u.owner == me && u.asset == asset)
      && tx.commands == [Command(UtxoCmd(Burn), [OwningKey(me), OwningKey(counterparty)])]
  {
    var mine := MyInputs(vault, me, asset);
    if mine != [] {
      assert mine[0] in mine;
      UtxosOfStates(mine);
    }
  }

  /** The counterparty signs what the initiator builds. */
  lemma AcceptorSignsBuilt(me: Party, counterparty: Party, asset: Asset, vault: seq<UTXO>)
    requires BuildBurn(me, counterparty, asset, vault).Ok?
    ensures AcceptorCheck(BuildBurn(me, counterparty, asset, vault).value, me) == Ok(())
  {
    var mine := MyInputs(vault, me, asset);
    var tx := BuildBurn(me, counterparty, asset, vault).value;
    forall s | s in tx.inputs
      ensures s.Utxo? && s.utxo.owner == me
    {
      var i :| 0 <= i < |tx.inputs| && tx.inputs[i] == s;
      assert mine[i] in mine;
    }
  }

  /** End to end: when the initiator's coins of an allowed asset share one
      participant list made of the two parties and have positive amounts, the
      validator accepts the burn. */
  lemma BuiltBurnAccepted(me: Party, counterparty: Party, asset: Asset, vault: seq<UTXO>, part: seq<Party>, now: int)
    requires IsAvailable(asset)
    requires BuildBurn(me, counterparty, asset, vault).Ok?
    requires forall u :: u in MyInputs(vault, me, asset) ==> u.participants == part && u.amount > 0
    requires forall p :: p in part ==> p == me || p == counterparty
    ensures Validate(BuildBurn(me, counterparty, asset, vault).value, now) == Ok(())
  {
    var mine := MyInputs(vault, me, asset);
    var tx := BuildBurn(me, counterparty, asset, vault).value;
    assert UtxoCommands(tx.commands) == tx.commands by {
      assert tx.commands[1..] == [];
    }
    assert AllStates(tx) == tx.inputs;
    forall s | s in AllStates(tx)
      ensures Participants(s) == part && AssetOf(s) == asset && AmountOf(s) > 0
    {
      var i :| 0 <= i < |tx.inputs| && tx.inputs[i] == s;
      assert mine[i] in mine;
    }
    GlobalRulesFrom(tx, Burn, Signers(me, counterparty), part, asset);
    ValidateIffAdmissible(tx, now);
  }
}

/** ConvertFlow: the escrow found by `linearId` is turned back into a coin for
    the initiator: the receiver before the locktime once the secret is
    revealed, the sender from the locktime on. The flow itself only logs a
    warning when the conversion is bound to fail, so it does not depend on
    the clock; the validator decides. */
module ConvertFlow {
  import opened Wrappers
  import opened Ledger
  import opened Assets
  import opened UtxoState
  import opened HtlcState
  import opened Transactions
  import opened UtxoContract
  import opened UtxoContractProperties
  import opened Flows

  /** The transaction the initiator builds: the escrow as input, a coin of its
      asset and amount owned by the initiator and shared by the escrow's
      participants as output, a Convert command signed by the initiator and
      `counterparty`. */
  function BuildConvert(me: Party, counterparty: Party, linearId: UniqueIdentifier,
                        vault: seq<HTLC>): (r: Result<Transaction, FlowError>)
    ensures |HtlcsWithId(vault, linearId)| != 1 ==> r == Err(HtlcLookup(|HtlcsWithId(vault, linearId)|))
    ensures r.Ok? ==>
      && |HtlcsWithId(vault, linearId)| == 1
      && me in HtlcsWithId(vault, linearId)[0].participants
      && r.value.inputs == [Htlc(HtlcsWithId(vault, linearId)[0])]
      && |r.value.outputs| == 1 && r.value.outputs[0].Utxo? && r.value.outputs[0].utxo.owner == me
  {
    var found := HtlcsWithId(vault, linearId);
    if |found| != 1 then Err(HtlcLookup(|found|))
    else
      var htlc := found[0];
      match UtxoState.New(me, htlc.asset, htlc.amount, htlc.participants)
      case Err(e) => Err(UtxoInvalid(e))
      case Ok(output) =>
        Ok(Transaction([Htlc(htlc)], [Utxo(output)], [Command(UtxoCmd(Convert), Signers(me, counterparty))]))
  }

  /** The lookup must find exactly one escrow and the initiator must be among
      its participants; the coin then carries the escrow's asset, amount and
      participants. */
  lemma ConvertOutcome(me: Party, counterparty: Party, linearId: UniqueIdentifier, vault: seq<HTLC>)
    ensures var found := HtlcsWithId(vault, linearId);
      var r := BuildConvert(me, counterparty, linearId, vault);
      && (|found| != 1 <==> r == Err(HtlcLookup(|found|)))
      && (|found| == 1 ==>
            var h := found[0];
            && h in vault && h.linearId == linearId
            && (me !in h.participants ==> r == Err(UtxoInvalid(OwnerNotParticipant)))
            && (r.Ok? <==> me in h.participants && |h.participants| >= 2)
            && (r.Ok? ==>
                  && r.value.inputs == [Htlc(h)]
                  && r.value.outputs == [Utxo(UTXO(me, h.asset, h.amount, h.participants))]
                  && r.value.commands == [Command(UtxoCmd(Convert), [OwningKey(me), OwningKey(counterparty)])]))
  {
    var found := HtlcsWithId(vault, linearId);
    if |found| == 1 {
      assert found[0] in found;
    }
  }

  /** The counterparty signs what the initiator builds. */
  lemma AcceptorSignsBuilt(me: Party, counterparty: Party, linearId: UniqueIdentifier, vault: seq<HTLC>)
    requires BuildConvert(me, counterparty, linearId, vault).Ok?
    ensures ClaimAcceptorCheck(BuildConvert(me, counterparty, linearId, vault).value, me) == Ok(())
  {
  }

  /** For an escrow of an allowed asset with a positive amount, whose
      participants the two signers cover, the validator accepts the built
      conversion exactly when, before the locktime, the escrow carries the
      valid secret and the initiator is its receiver, or, from the locktime
      on, the initiator is its sender. */
  lemma BuiltConvertAcceptedIff(me: Party, counterparty: Party, linearId: UniqueIdentifier, vault: seq<HTLC>, now: int)
    requires BuildConvert(me, counterparty, linearId, vault).Ok?
    requires var h := HtlcsWithId(vault, linearId)[0];
      && IsAvailable(h.asset) && h.amount > 0
      && forall p :: p in h.participants ==> p == me || p == counterparty
    ensures var h := HtlcsWithId(vault, linearId)[0];
      Validate(BuildConvert(me, counterparty, linearId, vault).value, now).Ok? <==>
        if now < h.locktime then IsSecretValid(h) && me == h.receiver else me == h.sender
  {
    ConvertOutcome(me, counterparty, linearId, vault);
    var h := HtlcsWithId(vault, linearId)[0];
    var tx := BuildConvert(me, counterparty, linearId, vault).value;
    assert UtxoCommands(tx.commands) == tx.commands by {
      assert tx.commands[1..] == [];
    }
    assert AllStates(tx) == [tx.inputs[0], tx.outputs[0]];
    assert Amounts(tx.inputs) == [h.amount] && Amounts(tx.outputs) == [h.amount];
    GlobalRulesFrom(tx, Convert, Signers(me, counterparty), h.participants, h.asset);
    ValidateIffAdmissible(tx, now);
  }
}

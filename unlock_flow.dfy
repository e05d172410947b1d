/** UnlockFlow: the receiver of an escrow reveals the secret. As written it
    builds the escrow with the secret as input and a coin for itself as
    output; the validator's Unlock rules ask for the escrow with the secret as
    output instead. */
module UnlockFlow {
  import opened Wrappers
  import opened Ledger
  import opened Assets
  import opened Hashing
  import opened UtxoState
  import opened HtlcState
  import opened Transactions
  import opened UtxoContract
  import opened UtxoContractProperties
  import opened Flows

  /** The coin the flow creates for the initiator, shared with `counterparty`. */
  function Claimed(me: Party, counterparty: Party, h: HTLC): UTXO
  {
    UTXO(me, h.asset, h.amount, [counterparty, me])
  }

  /** The transaction the initiator builds, as written: the escrow found by
      `linearId`, with the secret added, as input; the claimed coin as output;
      an Unlock command signed by the initiator and the escrow's sender. */
  function BuildUnlock(me: Party, counterparty: Party, linearId: UniqueIdentifier, secret: string,
                       vault: seq<HTLC>): (r: Result<Transaction, FlowError>)
    ensures |HtlcsWithId(vault, linearId)| != 1 ==> r == Err(HtlcLookup(|HtlcsWithId(vault, linearId)|))
    ensures r.Ok? ==>
      && |HtlcsWithId(vault, linearId)| == 1
      && Hash(secret) == HtlcsWithId(vault, linearId)[0].secretHash
      && r.value.outputs == [Utxo(UTXO(me, HtlcsWithId(vault, linearId)[0].asset, HtlcsWithId(vault, linearId)[0].amount, [counterparty, me]))]
  {
    var found := HtlcsWithId(vault, linearId);
    if |found| != 1 then Err(HtlcLookup(|found|))
    else
      var htlc := found[0];
      match WithSecret(htlc, secret)
      case Err(e) => Err(HtlcInvalid(e))
      case Ok(withSecret) =>
        Ok(Transaction([Htlc(withSecret)], [Utxo(Claimed(me, counterparty, htlc))],
                       [Command(UtxoCmd(Unlock), Signers(me, htlc.sender))]))
  }

  /** The transaction the Unlock rules of the validator describe: the escrow
      as input, the same escrow carrying the secret as output. */
  function BuildUnlockCorrected(me: Party, linearId: UniqueIdentifier, secret: string,
                                vault: seq<HTLC>): (r: Result<Transaction, FlowError>)
    ensures |HtlcsWithId(vault, linearId)| != 1 ==> r == Err(HtlcLookup(|HtlcsWithId(vault, linearId)|))
    ensures r.Ok? ==>
      && |HtlcsWithId(vault, linearId)| == 1
      && Hash(secret) == HtlcsWithId(vault, linearId)[0].secretHash
      && r.value.inputs == [Htlc(HtlcsWithId(vault, linearId)[0])]
      && r.value.outputs == [Htlc(HtlcsWithId(vault, linearId)[0].(secret := Some(secret)))]
  {
    var found := HtlcsWithId(vault, linearId);
    if |found| != 1 then Err(HtlcLookup(|found|))
    else
      var htlc := found[0];
      match WithSecret(htlc, secret)
      case Err(e) => Err(HtlcInvalid(e))
      case Ok(withSecret) =>
        Ok(Transaction([Htlc(htlc)], [Htlc(withSecret)],
                       [Command(UtxoCmd(Unlock), Signers(me, htlc.sender))]))
  }

  /** The claimed coin is what the UTXO constructor builds; it never fails. */
  lemma ClaimedConstructionSucceeds(me: Party, counterparty: Party, h: HTLC)
    ensures UtxoState.New(me, h.asset, h.amount, [counterparty, me]) == Ok(Claimed(me, counterparty, h))
  {
  }

  /** The lookup must find exactly one escrow, the secret must match its
      hash, and then the built transaction consumes that escrow with the
      secret and pays its amount to the initiator. */
  lemma UnlockOutcome(me: Party, counterparty: Party, linearId: UniqueIdentifier, secret: string, vault: seq<HTLC>)
    ensures var found := HtlcsWithId(vault, linearId);
      var r := BuildUnlock(me, counterparty, linearId, secret, vault);
      && (|found| != 1 <==> r == Err(HtlcLookup(|found|)))
      && (|found| == 1 ==>
            var h := found[0];
            && h in vault && h.linearId == linearId
            && (r.Ok? <==> |h.participants| >= 2 && Hash(secret) == h.secretHash)
            && (r.Ok? ==>
                  && r.value.inputs == [Htlc(h.(secret := Some(secret)))]
                  && r.value.outputs == [Utxo(UTXO(me, h.asset, h.amount, [counterparty, me]))]
                  && r.value.commands == [Command(UtxoCmd(Unlock), [OwningKey(me), OwningKey(h.sender)])]))
  {
    var found := HtlcsWithId(vault, linearId);
    if |found| == 1 {
      assert found[0] in found;
    }
  }

  /** As written, the validator rejects every transaction the flow builds: an
      Unlock must create an HTLC, and this one creates a coin. */
  lemma UnlockAsWrittenRejected(me: Party, counterparty: Party, linearId: UniqueIdentifier, secret: string,
                                vault: seq<HTLC>, now: int)
    requires BuildUnlock(me, counterparty, linearId, secret, vault).Ok?
    ensures Validate(BuildUnlock(me, counterparty, linearId, secret, vault).value, now).Err?
  {
    var tx := BuildUnlock(me, counterparty, linearId, secret, vault).value;
    assert UtxoCommands(tx.commands) == tx.commands by {
      assert tx.commands[1..] == [];
    }
  }

  /** The initiator's counterpart (the escrow's sender) signs what the flow
      builds as written. */
  lemma AcceptorSignsBuilt(me: Party, counterparty: Party, linearId: UniqueIdentifier, secret: string, vault: seq<HTLC>)
    requires BuildUnlock(me, counterparty, linearId, secret, vault).Ok?
    ensures ClaimAcceptorCheck(BuildUnlock(me, counterparty, linearId, secret, vault).value, me) == Ok(())
  {
  }

  /** The acceptor refuses the transaction the validator would accept: it
      insists on a coin as output. */
  lemma AcceptorRefusesCorrected(me: Party, linearId: UniqueIdentifier, secret: string, vault: seq<HTLC>, initiator: Party)
    requires BuildUnlockCorrected(me, linearId, secret, vault).Ok?
    ensures ClaimAcceptorCheck(BuildUnlockCorrected(me, linearId, secret, vault).value, initiator) == Err(OutputNotUtxo)
  {
    var tx := BuildUnlockCorrected(me, linearId, secret, vault).value;
    assert tx.outputs[0] in tx.outputs;
  }

  /** Corrected: for a locked escrow (no secret yet, before its locktime) of
      an allowed asset shared by the initiator and the sender, the flow
      succeeds exactly when the secret matches the hash, and the validator
      then accepts what it builds. */
  lemma UnlockCorrectedAccepted(me: Party, linearId: UniqueIdentifier, secret: string, vault: seq<HTLC>, now: int)
    requires |HtlcsWithId(vault, linearId)| == 1
    requires var h := HtlcsWithId(vault, linearId)[0];
      && HtlcState.Valid(h) && h.secret.None? && now < h.locktime
      && IsAvailable(h.asset) && h.amount > 0
      && forall p :: p in h.participants ==> p == me || p == h.sender
    ensures var h := HtlcsWithId(vault, linearId)[0];
      BuildUnlockCorrected(me, linearId, secret, vault).Ok? <==> Hash(secret) == h.secretHash
    ensures BuildUnlockCorrected(me, linearId, secret, vault).Ok? ==>
      Validate(BuildUnlockCorrected(me, linearId, secret, vault).value, now) == Ok(())
  {
    var h := HtlcsWithId(vault, linearId)[0];
    WithSecretChangesOnlySecret(h, secret);
    UnlockIffSecretMatches(h, secret, Signers(me, h.sender), now);
  }
}

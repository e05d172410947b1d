/** Properties of UTXOContract's `verify`: an independent statement of what it
    accepts, the escrow lifecycle it allows, and what the wrapping sums of the
    conservation check let through. */
module UtxoContractProperties {
  import opened Wrappers
  import opened Ledger
  import opened Assets
  import opened Hashing
  import opened UtxoState
  import opened HtlcState
  import opened Transactions
  import opened UtxoContract

  /** Every requirement of `verify` at once, in no particular order. */
  ghost predicate Admissible(tx: Transaction, now: int)
  {
    && HasSingleCommand(tx)
    && GlobalRules(tx, TheCommand(tx).value.utxoCmd, TheCommand(tx).signers)
    && CommandRules(tx, TheCommand(tx).value.utxoCmd, now)
  }

  /** The requirements shared by all commands. */
  ghost predicate GlobalRules(tx: Transaction, c: UtxoCommand, signers: seq<PublicKey>)
  {
    && AllStates(tx) != []
    && var first := AllStates(tx)[0];
       && (forall s :: s in AllStates(tx) ==> Participants(s) == Participants(first))
       && (forall p :: p in Participants(first) ==> OwningKey(p) in signers)
       && (forall s :: s in AllStates(tx) ==> AssetOf(s) == AssetOf(first))
       && (AssetOf(first) == BTC || AssetOf(first) == DASH)
       && (forall s :: s in AllStates(tx) ==> AmountOf(s) > 0)
       && (c == Mint || c == Burn || Sum(Amounts(tx.inputs)) == Sum(Amounts(tx.outputs)))
       && (c == Lock || c == Unlock || c == Convert ==> |tx.inputs| == 1 && |tx.outputs| == 1)
  }

  /** The requirements of one command, for a transaction meeting the shared ones. */
  ghost predicate CommandRules(tx: Transaction, c: UtxoCommand, now: int)
  {
    match c
    case Mint =>
      tx.inputs == [] && |tx.outputs| == 1 && tx.outputs[0].Utxo?
      && tx.outputs[0].utxo.owner in tx.outputs[0].utxo.participants
    case Burn => tx.outputs == []
    case Transfer =>
      (exists i :: 0 <= i < |tx.inputs| && tx.inputs[i].Utxo?)
      && (exists j :: 0 <= j < |tx.outputs| && tx.outputs[j].Utxo?)
      && forall u :: Utxo(u) in tx.outputs ==> u.owner in UtxosOf(tx.inputs)[0].participants
    case Lock =>
      |tx.inputs| == 1 && |tx.outputs| == 1
      && tx.inputs[0].Utxo? && tx.outputs[0].Htlc? && LockRules(tx.inputs[0].utxo, tx.outputs[0].htlc, now)
    case Unlock =>
      |tx.inputs| == 1 && |tx.outputs| == 1
      && tx.inputs[0].Htlc? && tx.outputs[0].Htlc? && UnlockRules(tx.inputs[0].htlc, tx.outputs[0].htlc, now)
      && |tx.outputs[0].htlc.participants| >= 2
    case Convert =>
      |tx.inputs| == 1 && |tx.outputs| == 1
      && tx.inputs[0].Htlc? && tx.outputs[0].Utxo? && ConvertRules(tx.inputs[0].htlc, tx.outputs[0].utxo, now)
  }

  lemma NonEmptyHasUtxo(ss: seq<State>)
    ensures UtxosOf(ss) != [] <==> exists i :: 0 <= i < |ss| && ss[i].Utxo?
  {
    if UtxosOf(ss) != [] {
      var u := UtxosOf(ss)[0];
      assert Utxo(u) in ss;
    }
    if i :| 0 <= i < |ss| && ss[i].Utxo? {
      assert ss[i].utxo in UtxosOf(ss);
    }
  }

  lemma SingletonOfType(s: State)
    ensures UtxosOf([s]) == if s.Utxo? then [s.utxo] else []
    ensures HtlcsOf([s]) == if s.Htlc? then [s.htlc] else []
  {
    assert [s][1..] == [];
  }

  lemma SignersIff(signers: seq<PublicKey>, part: seq<Party>)
    ensures ContainsAll(signers, OwningKeys(part)) <==> forall p :: p in part ==> OwningKey(p) in signers
  {
    forall p | p in part ensures OwningKey(p) in OwningKeys(part) { OwningKeysIn(part, p); }
  }

  lemma GlobalIff(tx: Transaction, c: UtxoCommand, signers: seq<PublicKey>)
    ensures GlobalChecks(tx, c, signers, Exact).Ok? <==> GlobalRules(tx, c, signers)
  {
    if AllStates(tx) != [] {
      SignersIff(signers, Participants(AllStates(tx)[0]));
    }
  }

  lemma CommandIff(tx: Transaction, c: UtxoCommand, now: int)
    requires IsLockCmd(c) ==> |tx.inputs| == 1 && |tx.outputs| == 1
    ensures CommandChecks(tx, c, now).Ok? <==> CommandRules(tx, c, now)
  {
    match c
    case Mint => MintIff(tx);
    case Burn =>
    case Transfer => TransferIff(tx);
    case Lock => LockIff(tx, now);
    case Unlock => UnlockIff(tx, now);
    case Convert => ConvertIff(tx, now);
  }

  lemma MintIff(tx: Transaction)
    ensures VerifyMint(tx).Ok? <==> CommandRules(tx, Mint, 0)
  {
    if |tx.outputs| == 1 { SingletonOfType(tx.outputs[0]); assert tx.outputs == [tx.outputs[0]]; }
  }

  lemma TransferIff(tx: Transaction)
    ensures VerifyTransfer(tx).Ok? <==> CommandRules(tx, Transfer, 0)
  {
    NonEmptyHasUtxo(tx.inputs);
    NonEmptyHasUtxo(tx.outputs);
  }

  lemma LockIff(tx: Transaction, now: int)
    requires |tx.inputs| == 1 && |tx.outputs| == 1
    ensures VerifyLock(tx, now).Ok? <==> CommandRules(tx, Lock, now)
  {
    SingletonOfType(tx.inputs[0]); assert tx.inputs == [tx.inputs[0]];
    SingletonOfType(tx.outputs[0]); assert tx.outputs == [tx.outputs[0]];
  }

  lemma UnlockIff(tx: Transaction, now: int)
    requires |tx.inputs| == 1 && |tx.outputs| == 1
    ensures VerifyUnlock(tx, now).Ok? <==> CommandRules(tx, Unlock, now)
  {
    SingletonOfType(tx.inputs[0]); assert tx.inputs == [tx.inputs[0]];
    SingletonOfType(tx.outputs[0]); assert tx.outputs == [tx.outputs[0]];
  }

  lemma ConvertIff(tx: Transaction, now: int)
    requires |tx.inputs| == 1 && |tx.outputs| == 1
    ensures VerifyConvert(tx, now).Ok? <==> CommandRules(tx, Convert, now)
  {
    SingletonOfType(tx.inputs[0]); assert tx.inputs == [tx.inputs[0]];
    SingletonOfType(tx.outputs[0]); assert tx.outputs == [tx.outputs[0]];
  }

  /** The validator accepts exactly the admissible transactions. */
  lemma ValidateIffAdmissible(tx: Transaction, now: int)
    ensures Validate(tx, now).Ok? <==> Admissible(tx, now)
  {
    if HasSingleCommand(tx) {
      var cmd := TheCommand(tx);
      GlobalIff(tx, cmd.value.utxoCmd, cmd.signers);
      if GlobalRules(tx, cmd.value.utxoCmd, cmd.signers) {
        CommandIff(tx, cmd.value.utxoCmd, now);
      }
    }
  }

  /** The shared requirements hold when every state has the same participant
      list, asset and a positive amount, and the rest is in order. */
  lemma GlobalRulesFrom(tx: Transaction, c: UtxoCommand, signers: seq<PublicKey>, part: seq<Party>, asset: Asset)
    requires AllStates(tx) != []
    requires forall s :: s in AllStates(tx) ==> Participants(s) == part && AssetOf(s) == asset && AmountOf(s) > 0
    requires forall p :: p in part ==> OwningKey(p) in signers
    requires IsAvailable(asset)
    requires c == Mint || c == Burn || Sum(Amounts(tx.inputs)) == Sum(Amounts(tx.outputs))
    requires IsLockCmd(c) ==> |tx.inputs| == 1 && |tx.outputs| == 1
    ensures GlobalRules(tx, c, signers)
  {
    assert AllStates(tx)[0] in AllStates(tx);
  }

  /** While the true sums fit in `Int`, the check as written decides the same as
      the check as intended. */
  lemma AsWrittenAgreesWithoutOverflow(tx: Transaction, now: int)
    requires INT32_MIN <= Sum(Amounts(tx.inputs)) <= INT32_MAX
    requires INT32_MIN <= Sum(Amounts(tx.outputs)) <= INT32_MAX
    ensures Verify(tx, now, Int32Wrapping) == Validate(tx, now)
  {
    SumInt32Exact(Amounts(tx.inputs));
    SumInt32Exact(Amounts(tx.outputs));
    assert SumsEqual(Int32Wrapping, tx) == SumsEqual(Exact, tx);
  }

  /** Two parties sharing the participant list of every state below. */
  function Pair(): seq<Party>
  {
    [Party(0), Party(1)]
  }

  /** Both parties sign. */
  function PairSigners(): seq<PublicKey>
  {
    [OwningKey(Party(0)), OwningKey(Party(1))]
  }

  /** A Transfer turning one DASH coin of 1 into coins of 2^31 - 1, 2^31 - 1
      and 3, worth 2^32 + 1 in all. */
  function OverflowTx(): Transaction
  {
    Transaction(
      [Utxo(UTXO(Party(0), DASH, 1, Pair()))],
      [Utxo(UTXO(Party(1), DASH, 0x7fff_ffff, Pair())), Utxo(UTXO(Party(1), DASH, 0x7fff_ffff, Pair())),
       Utxo(UTXO(Party(0), DASH, 3, Pair()))],
      [Command(UtxoCmd(Transfer), PairSigners())])
  }

  /** As written, the wrapping sums let a Transfer create value: `OverflowTx`
      creates 2^32 units, and the check accepts it. The check as intended
      rejects it. */
  lemma OverflowCreatesValue(now: int)
    ensures WellFormed(OverflowTx())
    ensures Sum(Amounts(OverflowTx().outputs)) == Sum(Amounts(OverflowTx().inputs)) + 0x1_0000_0000
    ensures Verify(OverflowTx(), now, Int32Wrapping) == Ok(())
    ensures Validate(OverflowTx(), now) == Err(AmountsNotConserved)
  {
    OverflowSums();
    OverflowWellFormed();
    OverflowWrappingAccepts(now);
    OverflowExactRefuses(now);
  }

  lemma OverflowWrappingAccepts(now: int)
    ensures Verify(OverflowTx(), now, Int32Wrapping) == Ok(())
  {
    var tx := OverflowTx();
    OverflowSums();
    PairKeys();
    assert UtxoCommands(tx.commands) == tx.commands by {
      assert tx.commands[1..] == [];
    }
    OverflowGlobal();
    OverflowTransfer();
    VerifySplit(tx, now, Int32Wrapping);
  }

  lemma OverflowExactRefuses(now: int)
    ensures Validate(OverflowTx(), now) == Err(AmountsNotConserved)
  {
    var tx := OverflowTx();
    OverflowSums();
    PairKeys();
    assert UtxoCommands(tx.commands) == tx.commands by {
      assert tx.commands[1..] == [];
    }
    OverflowGlobal();
    VerifySplit(tx, now, Exact);
  }

  lemma PairKeys()
    ensures OwningKeys(Pair()) == PairSigners()
    ensures ContainsAll(PairSigners(), OwningKeys(Pair()))
  {
    assert Pair()[1..] == [Party(1)] && Pair()[1..][1..] == [];
  }

  lemma OverflowSums()
    ensures Sum(Amounts(OverflowTx().inputs)) == 1
    ensures Sum(Amounts(OverflowTx().outputs)) == 0x1_0000_0001
    ensures SumInt32(Amounts(OverflowTx().inputs)) == 1 && SumInt32(Amounts(OverflowTx().outputs)) == 1
  {
    var ins, outs := Amounts(OverflowTx().inputs), Amounts(OverflowTx().outputs);
    assert ins == [1] && ins[1..] == [];
    assert outs == [0x7fff_ffff, 0x7fff_ffff, 3];
    assert outs[1..] == [0x7fff_ffff, 3] && outs[1..][1..] == [3] && outs[1..][1..][1..] == [];
    assert Sum([3]) == 3 + Sum([]);
    assert Sum(outs[1..]) == 0x7fff_ffff + Sum([3]);
    assert Sum(outs) == 0x7fff_ffff + Sum(outs[1..]);
    SumInt32IsWrappedSum(0, ins);
    SumInt32IsWrappedSum(0, outs);
  }

  lemma OverflowGlobal()
    requires Sum(Amounts(OverflowTx().inputs)) == 1
    requires Sum(Amounts(OverflowTx().outputs)) == 0x1_0000_0001
    requires SumInt32(Amounts(OverflowTx().inputs)) == SumInt32(Amounts(OverflowTx().outputs))
    requires ContainsAll(PairSigners(), OwningKeys(Pair()))
    ensures GlobalChecks(OverflowTx(), Transfer, PairSigners(), Int32Wrapping) == Ok(())
    ensures GlobalChecks(OverflowTx(), Transfer, PairSigners(), Exact) == Err(AmountsNotConserved)
  {
    var all := AllStates(OverflowTx());
    assert forall s :: s in all ==> s.Utxo? && s.utxo.participants == Pair() && s.utxo.asset == DASH && s.utxo.amount > 0;
    assert SameParticipants(all, Pair()) && SameAsset(all, DASH) && AllPositive(all);
  }

  lemma OverflowWellFormed()
    ensures WellFormed(OverflowTx())
  {
    var p := Pair();
    assert Party(0) in p && Party(1) in p;
    assert UtxoState.Valid(UTXO(Party(0), DASH, 1, p)) && UtxoState.Valid(UTXO(Party(0), DASH, 3, p));
    assert UtxoState.Valid(UTXO(Party(1), DASH, 0x7fff_ffff, p));
  }

  lemma OverflowTransfer()
    ensures VerifyTransfer(OverflowTx()) == Ok(())
  {
    var tx := OverflowTx();
    assert UtxosOf(tx.inputs) == [UTXO(Party(0), DASH, 1, Pair())] by {
      SingletonOfType(tx.inputs[0]);
      assert tx.inputs == [tx.inputs[0]];
    }
    assert tx.outputs[0].utxo in UtxosOf(tx.outputs);
  }

  /** Under Lock, Unlock and Convert the single input's amount and asset are
      carried unchanged to the single output. */
  lemma EscrowCarriesAmountAndAsset(tx: Transaction, now: int)
    requires Validate(tx, now).Ok? && IsLockCmd(TheCommand(tx).value.utxoCmd)
    ensures AmountOf(tx.outputs[0]) == AmountOf(tx.inputs[0])
    ensures AssetOf(tx.outputs[0]) == AssetOf(tx.inputs[0])
  {
    assert Amounts(tx.inputs) == [AmountOf(tx.inputs[0])];
    assert Amounts(tx.outputs) == [AmountOf(tx.outputs[0])];
    assert tx.outputs[0] in AllStates(tx);
  }

  /** The phases of an escrow: no secret yet, or a secret revealed. */
  datatype Phase = Locked | Unlocked

  function PhaseOf(h: HTLC): Phase
  {
    if h.secret.None? then Locked else Unlocked
  }

  /** The escrow lifecycle the validator allows: Lock creates a LOCKED escrow
      that expires in the future; Unlock moves LOCKED to UNLOCKED with a valid
      secret, strictly before expiry; Convert ends the escrow, paying the
      receiver before expiry only from an escrow with a valid secret, and the
      sender from expiry on. */
  lemma EscrowLifecycle(tx: Transaction, now: int)
    requires Validate(tx, now).Ok?
    ensures TheCommand(tx).value.utxoCmd == Lock ==>
      PhaseOf(tx.outputs[0].htlc) == Locked && tx.outputs[0].htlc.locktime > now
    ensures TheCommand(tx).value.utxoCmd == Unlock ==>
      && PhaseOf(tx.inputs[0].htlc) == Locked && PhaseOf(tx.outputs[0].htlc) == Unlocked
      && IsSecretValid(tx.outputs[0].htlc) && now < tx.inputs[0].htlc.locktime
      && tx.outputs[0].htlc.linearId == tx.inputs[0].htlc.linearId
    ensures TheCommand(tx).value.utxoCmd == Convert ==>
      var h, u := tx.inputs[0].htlc, tx.outputs[0].utxo;
      && (now < h.locktime ==> PhaseOf(h) == Unlocked && IsSecretValid(h) && u.owner == h.receiver)
      && (now >= h.locktime ==> u.owner == h.sender)
  {
  }

  /** Unlocking a locked escrow before expiry, with everything else in order,
      succeeds exactly when the secret hashes to the committed hash. */
  lemma UnlockIffSecretMatches(h: HTLC, secret: string, signers: seq<PublicKey>, now: int)
    requires h.secret.None? && |h.participants| >= 2 && now < h.locktime
    requires IsAvailable(h.asset) && h.amount > 0
    requires forall p :: p in h.participants ==> OwningKey(p) in signers
    ensures
      var tx := Transaction([Htlc(h)], [Htlc(h.(secret := Some(secret)))], [Command(UtxoCmd(Unlock), signers)]);
      Validate(tx, now).Ok? <==> Hash(secret) == h.secretHash
  {
    var tx := Transaction([Htlc(h)], [Htlc(h.(secret := Some(secret)))], [Command(UtxoCmd(Unlock), signers)]);
    assert UtxoCommands(tx.commands) == tx.commands by {
      assert tx.commands[1..] == [];
    }
    assert AllStates(tx) == [tx.inputs[0], tx.outputs[0]];
    assert Amounts(tx.inputs) == [h.amount] && Amounts(tx.outputs) == [h.amount];
    GlobalRulesFrom(tx, Unlock, signers, h.participants, h.asset);
    ValidateIffAdmissible(tx, now);
  }

  /** Converting a locked escrow (no secret revealed) before expiry is rejected. */
  lemma ConvertLockedBeforeExpiryRejected(tx: Transaction, now: int)
    requires |tx.inputs| == 1 && tx.inputs[0].Htlc?
    requires tx.inputs[0].htlc.secret.None? && now < tx.inputs[0].htlc.locktime
    requires HasSingleCommand(tx) && TheCommand(tx).value == UtxoCmd(Convert)
    ensures Validate(tx, now).Err?
  {
  }

  /** Whatever else is wrong, a transaction with a non-positive amount, or with
      an asset other than BTC and DASH, is rejected. */
  lemma PositivityAndAllowList(tx: Transaction, now: int, s: State)
    requires s in tx.inputs || s in tx.outputs
    requires AmountOf(s) <= 0 || !IsAvailable(AssetOf(s))
    ensures Validate(tx, now).Err?
  {
    assert s in AllStates(tx);
  }

  /** A Transfer consuming a coin of 1 together with a locked escrow of 5
      whose locktime has not come, into one coin of 6. */
  function SpendEscrowTx(now: int): Transaction
  {
    Transaction(
      [Utxo(UTXO(Party(0), BTC, 1, Pair())),
       Htlc(HTLC(Party(0), Party(1), BTC, 5, None, Hash("s"), now + 1, UniqueIdentifier(0), Pair()))],
      [Utxo(UTXO(Party(0), BTC, 6, Pair()))],
      [Command(UtxoCmd(Transfer), PairSigners())])
  }

  /** The Transfer checks look only at the UTXO states: with every participant
      signing, a Transfer may consume an escrow, before its locktime and without
      its secret, together with a coin. */
  lemma TransferMaySpendEscrow(now: int)
    ensures WellFormed(SpendEscrowTx(now))
    ensures SpendEscrowTx(now).inputs[1].Htlc? && SpendEscrowTx(now).inputs[1].htlc.secret.None?
    ensures now < SpendEscrowTx(now).inputs[1].htlc.locktime
    ensures Validate(SpendEscrowTx(now), now) == Ok(())
  {
    var tx := SpendEscrowTx(now);
    PairKeys();
    assert UtxoCommands(tx.commands) == tx.commands by {
      assert tx.commands[1..] == [];
    }
    SpendEscrowGlobal(now);
    SpendEscrowTransfer(now);
    VerifySplit(tx, now, Exact);
  }

  lemma SpendEscrowGlobal(now: int)
    requires ContainsAll(PairSigners(), OwningKeys(Pair()))
    ensures WellFormed(SpendEscrowTx(now))
    ensures GlobalChecks(SpendEscrowTx(now), Transfer, PairSigners(), Exact) == Ok(())
  {
    var tx := SpendEscrowTx(now);
    assert Sum(Amounts(tx.inputs)) == 6 by {
      var ins := Amounts(tx.inputs);
      assert ins == [1, 5] && ins[1..] == [5] && ins[1..][1..] == [];
      assert Sum([5]) == 5 + Sum([]);
      assert Sum(ins) == 1 + Sum(ins[1..]);
    }
    assert Sum(Amounts(tx.outputs)) == 6 by {
      var outs := Amounts(tx.outputs);
      assert outs == [6] && outs[1..] == [];
    }
    var all := AllStates(tx);
    assert SameParticipants(all, Pair()) && SameAsset(all, BTC) && AllPositive(all);
  }

  lemma SpendEscrowTransfer(now: int)
    ensures VerifyTransfer(SpendEscrowTx(now)) == Ok(())
  {
    var tx := SpendEscrowTx(now);
    assert UtxosOf(tx.inputs) == [tx.inputs[0].utxo] by {
      assert tx.inputs[1..] == [tx.inputs[1]];
      SingletonOfType(tx.inputs[1]);
    }
    SingletonOfType(tx.outputs[0]);
    assert tx.outputs == [tx.outputs[0]];
  }

  /** For constructed states two requirements can never fail: a Mint output's
      owner is always among its participants, and an Unlock output can always be
      copied without its secret. */
  lemma WellFormedNeverFailsStateChecks(tx: Transaction, now: int)
    requires WellFormed(tx)
    ensures Validate(tx, now) != Err(MintOwnerNotParticipant)
    ensures !(Validate(tx, now).Err? && Validate(tx, now).error.InvalidCopy?)
  {
    if HasSingleCommand(tx) {
      var c := TheCommand(tx).value.utxoCmd;
      VerifySplit(tx, now, Exact);
      GlobalErrors(tx, c, TheCommand(tx).signers, Exact);
      if GlobalChecks(tx, c, TheCommand(tx).signers, Exact).Ok? {
        MintOwnerAlwaysParticipant(tx);
        UnlockCopyAlwaysValid(tx, now);
        CommandErrors(tx, c, now);
      }
    }
  }

  lemma CommandErrors(tx: Transaction, c: UtxoCommand, now: int)
    requires IsLockCmd(c) ==> |tx.inputs| == 1 && |tx.outputs| == 1
    requires VerifyMint(tx) != Err(MintOwnerNotParticipant)
    requires !(VerifyUnlock(tx, now).Err? && VerifyUnlock(tx, now).error.InvalidCopy?)
    ensures CommandChecks(tx, c, now) != Err(MintOwnerNotParticipant)
    ensures !(CommandChecks(tx, c, now).Err? && CommandChecks(tx, c, now).error.InvalidCopy?)
  {
    match c
    case Mint =>
    case Burn =>
    case Transfer =>
    case Lock =>
    case Unlock =>
    case Convert =>
  }

  /** The shared checks never report a state's own invariant. */
  lemma GlobalErrors(tx: Transaction, c: UtxoCommand, signers: seq<PublicKey>, arith: Arithmetic)
    ensures GlobalChecks(tx, c, signers, arith) != Err(MintOwnerNotParticipant)
    ensures !(GlobalChecks(tx, c, signers, arith).Err? && GlobalChecks(tx, c, signers, arith).error.InvalidCopy?)
  {
  }

  /** `verify` is the shared checks followed by the command's own. */
  lemma VerifySplit(tx: Transaction, now: int, arith: Arithmetic)
    requires HasSingleCommand(tx)
    ensures
      var c := TheCommand(tx);
      var g := GlobalChecks(tx, c.value.utxoCmd, c.signers, arith);
      Verify(tx, now, arith) == if g.Err? then g else CommandChecks(tx, c.value.utxoCmd, now)
  {
  }

  lemma MintOwnerAlwaysParticipant(tx: Transaction)
    requires WellFormed(tx)
    ensures VerifyMint(tx) != Err(MintOwnerNotParticipant)
  {
    var outs := UtxosOf(tx.outputs);
    if |outs| == 1 {
      assert Utxo(outs[0]) in tx.outputs;
    }
  }

  lemma UnlockCopyAlwaysValid(tx: Transaction, now: int)
    requires WellFormed(tx)
    ensures !(VerifyUnlock(tx, now).Err? && VerifyUnlock(tx, now).error.InvalidCopy?)
  {
    var outs := HtlcsOf(tx.outputs);
    if |outs| == 1 {
      assert Htlc(outs[0]) in tx.outputs;
      WithoutSecretClears(outs[0]);
    }
  }

  /** The first broken requirement is the one reported, in source order: a
      state whose participant list differs from the first state's is reported
      before anything the later checks would find. */
  lemma ParticipantsDifferReported(tx: Transaction, now: int, arith: Arithmetic)
    requires HasSingleCommand(tx) && AllStates(tx) != []
    requires exists s :: s in AllStates(tx) && Participants(s) != Participants(AllStates(tx)[0])
    ensures Verify(tx, now, arith) == Err(ParticipantsDiffer)
  {
  }

  /** With the participants in order, a participant whose key did not sign is
      reported next. */
  lemma MissingSignatureReported(tx: Transaction, now: int, arith: Arithmetic)
    requires HasSingleCommand(tx) && AllStates(tx) != []
    requires var part := Participants(AllStates(tx)[0]);
      && (forall s :: s in AllStates(tx) ==> Participants(s) == part)
      && exists p :: p in part && OwningKey(p) !in TheCommand(tx).signers
    ensures Verify(tx, now, arith) == Err(MissingSignature)
  {
    SignersIff(TheCommand(tx).signers, Participants(AllStates(tx)[0]));
  }

  /** With one participant list, all signatures and one asset, an asset other
      than BTC and DASH is reported, whatever the amounts. */
  lemma AssetNotAllowedReported(tx: Transaction, now: int, arith: Arithmetic)
    requires HasSingleCommand(tx) && AllStates(tx) != []
    requires var first := AllStates(tx)[0];
      && (forall s :: s in AllStates(tx) ==> Participants(s) == Participants(first) && AssetOf(s) == AssetOf(first))
      && (forall p :: p in Participants(first) ==> OwningKey(p) in TheCommand(tx).signers)
      && AssetOf(first) != BTC && AssetOf(first) != DASH
    ensures Verify(tx, now, arith) == Err(AssetNotAllowed)
  {
    SignersIff(TheCommand(tx).signers, Participants(AllStates(tx)[0]));
  }

  /** With the asset allowed as well, a state of amount zero or less is
      reported before conservation is looked at. */
  lemma NonPositiveAmountReported(tx: Transaction, now: int, arith: Arithmetic)
    requires HasSingleCommand(tx) && AllStates(tx) != []
    requires var first := AllStates(tx)[0];
      && (forall s :: s in AllStates(tx) ==> Participants(s) == Participants(first) && AssetOf(s) == AssetOf(first))
      && (forall p :: p in Participants(first) ==> OwningKey(p) in TheCommand(tx).signers)
      && IsAvailable(AssetOf(first))
      && exists s :: s in AllStates(tx) && AmountOf(s) <= 0
    ensures Verify(tx, now, arith) == Err(NonPositiveAmount)
  {
    SignersIff(TheCommand(tx).signers, Participants(AllStates(tx)[0]));
  }

  /** With every other shared requirement met, unequal exact sums under a
      command other than Mint and Burn are reported. */
  lemma AmountsNotConservedReported(tx: Transaction, now: int)
    requires HasSingleCommand(tx) && AllStates(tx) != []
    requires var first := AllStates(tx)[0];
      && (forall s :: s in AllStates(tx) ==>
            Participants(s) == Participants(first) && AssetOf(s) == AssetOf(first) && AmountOf(s) > 0)
      && (forall p :: p in Participants(first) ==> OwningKey(p) in TheCommand(tx).signers)
      && IsAvailable(AssetOf(first))
    requires !AllowNonEqual(TheCommand(tx).value.utxoCmd)
    requires Sum(Amounts(tx.inputs)) != Sum(Amounts(tx.outputs))
    ensures Validate(tx, now) == Err(AmountsNotConserved)
  {
    SignersIff(TheCommand(tx).signers, Participants(AllStates(tx)[0]));
  }

  /** Once the shared requirements hold, the result is exactly that of the
      command's own checks, so a command violation is reported as such. */
  lemma CommandViolationReported(tx: Transaction, now: int)
    requires HasSingleCommand(tx)
    requires GlobalRules(tx, TheCommand(tx).value.utxoCmd, TheCommand(tx).signers)
    ensures Validate(tx, now) == CommandChecks(tx, TheCommand(tx).value.utxoCmd, now)
  {
    GlobalIff(tx, TheCommand(tx).value.utxoCmd, TheCommand(tx).signers);
  }
}

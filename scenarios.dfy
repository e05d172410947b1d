/** The happy paths of the flow tests, replayed on the model between two
    distinct parties `a` (the node that starts most flows) and `b`, each
    flow's vault holding just the states the previous steps created. */
module Scenarios {
  import opened Wrappers
  import opened Ledger
  import opened Assets
  import opened Hashing
  import opened UtxoState
  import opened HtlcState
  import opened Transactions
  import opened UtxoContract
  import opened UtxoContractProperties
  import opened Flows
  import MintFlow
  import BurnFlow
  import TransferFlow
  import LockFlow
  import UnlockFlow
  import ConvertFlow

  /** The coin MintFlow creates. */
  function Minted(a: Party, b: Party, asset: Asset, amount: Int32): UTXO
  {
    MintFlow.BuildMint(a, b, asset, amount).outputs[0].utxo
  }

  /** Mint 0.04 BTC, then burn it: both transactions are accepted. */
  lemma MintThenBurn(a: Party, b: Party, now: int)
    ensures Validate(MintFlow.BuildMint(a, b, BTC, 4000000), now) == Ok(())
    ensures BurnFlow.BuildBurn(a, b, BTC, [Minted(a, b, BTC, 4000000)]).Ok?
    ensures Validate(BurnFlow.BuildBurn(a, b, BTC, [Minted(a, b, BTC, 4000000)]).value, now) == Ok(())
  {
    var coin := Minted(a, b, BTC, 4000000);
    MintFlow.BuiltMintAcceptedIff(a, b, BTC, 4000000, now);
    assert coin in MyInputs([coin], a, BTC);
    BurnFlow.BuiltBurnAccepted(a, b, BTC, [coin], [a, b], now);
  }

  /** Mint 1.304 DASH, then transfer 1.004 DASH of it: both are accepted. */
  lemma MintThenTransfer(a: Party, b: Party, now: int)
    ensures Validate(MintFlow.BuildMint(a, b, DASH, 130400000), now) == Ok(())
    ensures TransferFlow.BuildTransfer(a, b, DASH, 100400000, [Minted(a, b, DASH, 130400000)]).Ok?
    ensures Validate(TransferFlow.BuildTransfer(a, b, DASH, 100400000, [Minted(a, b, DASH, 130400000)]).value, now) == Ok(())
  {
    var coin := Minted(a, b, DASH, 130400000);
    MintFlow.BuiltMintAcceptedIff(a, b, DASH, 130400000, now);
    assert MyInputs([coin], a, DASH) == [coin] by {
      assert [coin][1..] == [];
    }
    assert CoinAmounts([coin]) == [130400000];
    assert Sum([130400000]) == 130400000 + Sum([]);
    TransferFlow.BuiltTransferAccepted(a, b, DASH, 100400000, [coin], now);
  }

  /** The escrow the corrected LockFlow creates, locking the minted coin and
      committing to `secretHash`. */
  function Locked(a: Party, b: Party, asset: Asset, amount: Int32, lockDuration: Int32,
                  secretHash: string, id: UniqueIdentifier, now: int): HTLC
  {
    LockFlow.Escrow(a, b, asset, amount, secretHash, now + lockDuration, id)
  }

  /** Locking 0.81 BTC for two seconds: the lock built with the corrected
      locktime is accepted and, two seconds later, the sender takes the coins
      back; the lock built as written is rejected at any time from 2 on. */
  lemma LockThenRefund(a: Party, b: Party, secretHash: string, id: UniqueIdentifier, t: int)
    requires a != b
    ensures var coin := Minted(a, b, BTC, 81000000);
      var lock := LockFlow.BuildLockCorrected(a, b, BTC, 81000000, 2, secretHash, id, [coin], t);
      && lock.Ok? && Validate(lock.value, t) == Ok(())
      && lock.value.outputs == [Htlc(Locked(a, b, BTC, 81000000, 2, secretHash, id, t))]
    ensures var escrow := Locked(a, b, BTC, 81000000, 2, secretHash, id, t);
      var refund := ConvertFlow.BuildConvert(a, b, id, [escrow]);
      && refund.Ok? && Validate(refund.value, t + 2) == Ok(())
      && refund.value.outputs == [Utxo(UTXO(a, BTC, 81000000, [a, b]))]
    ensures t >= 2 ==>
      var coin := Minted(a, b, BTC, 81000000);
      Validate(LockFlow.BuildLock(a, b, BTC, 81000000, 2, secretHash, id, [coin]).value, t).Err?
  {
    var coin := Minted(a, b, BTC, 81000000);
    LockOnMinted(a, b, BTC, 81000000, 2, secretHash, id, t);
    LockFlow.LockAsWrittenAcceptedIff(a, b, BTC, 81000000, 2, secretHash, id, [coin], t);
    var escrow := Locked(a, b, BTC, 81000000, 2, secretHash, id, t);
    SingleEscrow(escrow, id);
    ConvertFlow.ConvertOutcome(a, b, id, [escrow]);
    ConvertFlow.BuiltConvertAcceptedIff(a, b, id, [escrow], t + 2);
  }

  /** Locking a freshly minted coin of its whole amount succeeds and creates
      the escrow; with the corrected locktime the validator accepts it. */
  lemma LockOnMinted(a: Party, b: Party, asset: Asset, amount: Int32, lockDuration: Int32,
                     secretHash: string, id: UniqueIdentifier, t: int)
    requires a != b && IsAvailable(asset) && amount > 0 && lockDuration > 0
    ensures var coin := Minted(a, b, asset, amount);
      var lock := LockFlow.BuildLockCorrected(a, b, asset, amount, lockDuration, secretHash, id, [coin], t);
      && lock.Ok? && Validate(lock.value, t) == Ok(())
      && lock.value.outputs == [Htlc(Locked(a, b, asset, amount, lockDuration, secretHash, id, t))]
      && LockFlow.BuildLock(a, b, asset, amount, lockDuration, secretHash, id, [coin]).Ok?
  {
    var coin := Minted(a, b, asset, amount);
    assert LockFlow.Lockable(coin, a, asset, amount);
    LockFlow.LockOutcome(a, b, asset, amount, t + lockDuration, secretHash, id, [coin]);
    LockFlow.LockOutcome(a, b, asset, amount, lockDuration, Hash(secretHash), id, [coin]);
    LockFlow.LockCorrectedAcceptedIff(a, b, asset, amount, lockDuration, secretHash, id, [coin], t);
  }

  /** A vault holding one escrow finds it by its `linearId`. */
  lemma SingleEscrow(h: HTLC, id: UniqueIdentifier)
    requires h.linearId == id
    ensures HtlcsWithId([h], id) == [h]
  {
    assert [h][1..] == [];
  }

  /** Locking 21.084 DASH for ten seconds with the hash of a secret as the
      flow's argument, revealing the secret itself one second later and
      converting: with the corrected Lock and Unlock every step is accepted
      and the receiver ends up owning the coins; the Unlock built as written
      is rejected. */
  lemma LockUnlockConvert(a: Party, b: Party, secret: string, id: UniqueIdentifier, t: int)
    requires a != b
    ensures var escrow := Locked(a, b, DASH, 2108400000, 10, Hash(secret), id, t);
      var unlock := UnlockFlow.BuildUnlockCorrected(b, id, secret, [escrow]);
      && unlock.Ok? && Validate(unlock.value, t + 1) == Ok(())
      && unlock.value.outputs == [Htlc(escrow.(secret := Some(secret)))]
      && Validate(UnlockFlow.BuildUnlock(b, a, id, secret, [escrow]).value, t + 1).Err?
    ensures var revealed := Locked(a, b, DASH, 2108400000, 10, Hash(secret), id, t).(secret := Some(secret));
      var claim := ConvertFlow.BuildConvert(b, a, id, [revealed]);
      && claim.Ok? && Validate(claim.value, t + 1) == Ok(())
      && claim.value.outputs == [Utxo(UTXO(b, DASH, 2108400000, [a, b]))]
  {
    LockOnMinted(a, b, DASH, 2108400000, 10, Hash(secret), id, t);
    UnlockStep(a, b, secret, id, t);
    ClaimStep(a, b, secret, id, t);
  }

  lemma UnlockStep(a: Party, b: Party, secret: string, id: UniqueIdentifier, t: int)
    requires a != b
    ensures var escrow := Locked(a, b, DASH, 2108400000, 10, Hash(secret), id, t);
      var unlock := UnlockFlow.BuildUnlockCorrected(b, id, secret, [escrow]);
      && unlock.Ok? && Validate(unlock.value, t + 1) == Ok(())
      && unlock.value.outputs == [Htlc(escrow.(secret := Some(secret)))]
      && Validate(UnlockFlow.BuildUnlock(b, a, id, secret, [escrow]).value, t + 1).Err?
  {
    var escrow := Locked(a, b, DASH, 2108400000, 10, Hash(secret), id, t);
    SingleEscrow(escrow, id);
    WithSecretChangesOnlySecret(escrow, secret);
    UnlockFlow.UnlockCorrectedAccepted(b, id, secret, [escrow], t + 1);
    UnlockFlow.UnlockOutcome(b, a, id, secret, [escrow]);
    UnlockFlow.UnlockAsWrittenRejected(b, a, id, secret, [escrow], t + 1);
  }

  lemma ClaimStep(a: Party, b: Party, secret: string, id: UniqueIdentifier, t: int)
    requires a != b
    ensures var revealed := Locked(a, b, DASH, 2108400000, 10, Hash(secret), id, t).(secret := Some(secret));
      var claim := ConvertFlow.BuildConvert(b, a, id, [revealed]);
      && claim.Ok? && Validate(claim.value, t + 1) == Ok(())
      && claim.value.outputs == [Utxo(UTXO(b, DASH, 2108400000, [a, b]))]
  {
    var revealed := Locked(a, b, DASH, 2108400000, 10, Hash(secret), id, t).(secret := Some(secret));
    SingleEscrow(revealed, id);
    ConvertFlow.ConvertOutcome(b, a, id, [revealed]);
    ConvertFlow.BuiltConvertAcceptedIff(b, a, id, [revealed], t + 1);
  }

  /** The same inputs with the Lock as written: the escrow commits to the hash
      of the hash, so revealing the secret succeeds only if SHA-256 maps the
      secret and its own rendering to the same digest. */
  lemma LockUnlockAsWritten(a: Party, b: Party, secret: string, id: UniqueIdentifier)
    requires a != b
    ensures var coin := Minted(a, b, DASH, 2108400000);
      var lock := LockFlow.BuildLock(a, b, DASH, 2108400000, 10, Hash(secret), id, [coin]);
      && lock.Ok?
      && lock.value.outputs == [Htlc(LockFlow.Escrow(a, b, DASH, 2108400000, Hash(Hash(secret)), 10, id))]
    ensures var escrow := LockFlow.Escrow(a, b, DASH, 2108400000, Hash(Hash(secret)), 10, id);
      && (UnlockFlow.BuildUnlock(b, a, id, secret, [escrow]).Ok? <==> Sha256(secret) == Sha256(Hash(secret)))
      && (UnlockFlow.BuildUnlockCorrected(b, id, secret, [escrow]).Ok? <==> Sha256(secret) == Sha256(Hash(secret)))
  {
    var coin := Minted(a, b, DASH, 2108400000);
    assert LockFlow.Lockable(coin, a, DASH, 2108400000);
    LockFlow.LockOutcome(a, b, DASH, 2108400000, 10, Hash(Hash(secret)), id, [coin]);
    var escrow := LockFlow.Escrow(a, b, DASH, 2108400000, Hash(Hash(secret)), 10, id);
    SingleEscrow(escrow, id);
    UnlockFlow.UnlockOutcome(b, a, id, secret, [escrow]);
    HashEqualIffDigestEqual(secret, Hash(secret));
  }
}

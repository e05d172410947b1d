/** LockFlow: the initiator escrows one of its coins of exactly `amount` in an
    HTLC for `receiver`, committing to a secret hash; the receiver
    co-signs after checking that only the initiator's coins are locked. */
module LockFlow {
  import opened Wrappers
  import opened Ledger
  import opened Assets
  import opened Hashing
  import opened UtxoState
  import opened HtlcState
  import opened Transactions
  import opened UtxoContract
  import opened UtxoContractProperties
  import opened Flows

  /** `coinsToLock`: the coins whose amount is exactly `amount`, in order. */
  function ExactAmount(coins: seq<UTXO>, amount: int): (r: seq<UTXO>)
    ensures forall u :: u in r <==> u in coins && u.amount == amount
  {
    if coins == [] then []
    else (if coins[0].amount == amount then [coins[0]] else []) + ExactAmount(coins[1..], amount)
  }

  /** The coin the flow locks must be the initiator's, of the asset, of exactly the amount. */
  predicate Lockable(u: UTXO, me: Party, asset: Asset, amount: int)
  {
    u.owner == me && u.asset == asset && u.amount == amount
  }

  /** The escrow the flow creates: the constructor with its default
      participants `[me, receiver]`, no secret, and a fresh `linearId`. */
  function Escrow(me: Party, receiver: Party, asset: Asset, amount: Int32, secretHash: string,
                  locktime: int, freshId: UniqueIdentifier): HTLC
  {
    HTLC(me, receiver, asset, amount, None, secretHash, locktime, freshId, [me, receiver])
  }

  /** The transaction the initiator builds, for a given `locktime`: the first
      lockable coin as input, the escrow as output, a Lock command signed by
      both parties. */
  function BuildLockAt(me: Party, receiver: Party, asset: Asset, amount: Int32, locktime: int,
                       secretHash: string, freshId: UniqueIdentifier, vault: seq<UTXO>): (r: Result<Transaction, FlowError>)
    ensures r.Ok? <==> exists u :: u in vault && Lockable(u, me, asset, amount)
    ensures r.Ok? ==>
      && |r.value.outputs| == 1 && r.value.outputs[0].Htlc?
      && r.value.outputs[0].htlc.secretHash == secretHash && r.value.outputs[0].htlc.locktime == locktime
  {
    var mine := MyInputs(vault, me, asset);
    if mine == [] then Err(NoUtxoFound)
    else
      var coinsToLock := ExactAmount(mine, amount);
      assert forall u :: u in vault && Lockable(u, me, asset, amount) ==> u in mine && u in coinsToLock;
      if coinsToLock == [] then Err(NoExactAmount)
      else
        assert coinsToLock[0] in mine;
        Ok(Transaction([Utxo(coinsToLock[0])],
                       [Htlc(Escrow(me, receiver, asset, amount, secretHash, locktime, freshId))],
                       [Command(UtxoCmd(Lock), Signers(me, receiver))]))
  }

  /** The flow as written: the lock duration is stored as the absolute
      locktime, and the escrow commits to the hash of the flow's `secret`
      argument, which callers already pass hashed. */
  function BuildLock(me: Party, receiver: Party, asset: Asset, amount: Int32, lockDuration: Int32,
                     secret: string, freshId: UniqueIdentifier, vault: seq<UTXO>): (r: Result<Transaction, FlowError>)
    ensures r.Ok? ==>
      && |r.value.outputs| == 1 && r.value.outputs[0].Htlc?
      && r.value.outputs[0].htlc.secretHash == Hash(secret)
  {
    BuildLockAt(me, receiver, asset, amount, lockDuration, Hash(secret), freshId, vault)
  }

  /** The flow as intended: the escrow expires `lockDuration` seconds after
      `now` and commits to the hash it is given. */
  function BuildLockCorrected(me: Party, receiver: Party, asset: Asset, amount: Int32, lockDuration: Int32,
                              secretHash: string, freshId: UniqueIdentifier, vault: seq<UTXO>, now: int): (r: Result<Transaction, FlowError>)
    ensures r.Ok? ==>
      && |r.value.outputs| == 1 && r.value.outputs[0].Htlc?
      && r.value.outputs[0].htlc.secretHash == secretHash
      && r.value.outputs[0].htlc.locktime == now + lockDuration
  {
    BuildLockAt(me, receiver, asset, amount, now + lockDuration, secretHash, freshId, vault)
  }

  /** The acceptor's `checkTransaction` run by the receiver. */
  function AcceptorCheck(tx: Transaction, initiator: Party): (r: Result<(), Refusal>)
    ensures r.Ok? <==>
      && (forall s :: s in tx.inputs ==> s.Utxo? && s.utxo.owner == initiator)
      && (forall s :: s in tx.outputs ==> s.Htlc?)
  {
    if !(forall s :: s in tx.inputs ==> s.Utxo?) then Err(InputNotUtxo)
    else if !(forall s :: s in tx.outputs ==> s.Htlc?) then Err(OutputNotHtlc)
    else if !(forall s :: s in tx.inputs ==> s.utxo.owner == initiator) then Err(InputNotOwned)
    else Ok(())
  }

  /** The escrow is what the HTLC constructor with defaults builds; it never fails. */
  lemma EscrowConstructionSucceeds(me: Party, receiver: Party, asset: Asset, amount: Int32, secretHash: string,
                                   locktime: int, freshId: UniqueIdentifier)
    ensures NewWithDefaults(me, receiver, asset, amount, None, secretHash, locktime, freshId)
      == Ok(Escrow(me, receiver, asset, amount, secretHash, locktime, freshId))
  {
  }

  /** The two failures and what a successful build consumes and creates. */
  lemma LockOutcome(me: Party, receiver: Party, asset: Asset, amount: Int32, locktime: int,
                    secretHash: string, freshId: UniqueIdentifier, vault: seq<UTXO>)
    ensures var r := BuildLockAt(me, receiver, asset, amount, locktime, secretHash, freshId, vault);
      && (r == Err(NoUtxoFound) <==> forall u :: u in vault ==> u.owner != me || u.asset != asset)
      && (r == Err(NoExactAmount) <==>
            (exists u :: u in vault && u.owner == me && u.asset == asset)
            && forall u :: u in vault ==> !Lockable(u, me, asset, amount))
      && (r.Ok? ==>
            && |r.value.inputs| == 1 && r.value.inputs[0].Utxo?
            && r.value.inputs[0].utxo in vault && Lockable(r.value.inputs[0].utxo, me, asset, amount)
            && r.value.outputs == [Htlc(HTLC(me, receiver, asset, amount, None, secretHash, locktime, freshId, [me, receiver]))]
            && r.value.commands == [Command(UtxoCmd(Lock), [OwningKey(me), OwningKey(receiver)])])
  {
    var mine := MyInputs(vault, me, asset);
    if mine != [] {
      assert mine[0] in mine;
      var coinsToLock := ExactAmount(mine, amount);
      if coinsToLock != [] {
        assert coinsToLock[0] in coinsToLock;
      }
    }
  }

  /** The lockable coins of the vault, in order, filtered in one pass. */
  function Lockables(vault: seq<UTXO>, me: Party, asset: Asset, amount: int): seq<UTXO>
  {
    if vault == [] then []
    else (if Lockable(vault[0], me, asset, amount) then [vault[0]] else []) + Lockables(vault[1..], me, asset, amount)
  }

  /** The coin locked is the first lockable coin of the vault. */
  lemma LockedCoinIsFirst(me: Party, asset: Asset, amount: Int32, vault: seq<UTXO>) returns (i: nat)
    requires ExactAmount(MyInputs(vault, me, asset), amount) != []
    ensures i < |vault| && vault[i] == ExactAmount(MyInputs(vault, me, asset), amount)[0]
    ensures Lockable(vault[i], me, asset, amount)
    ensures forall j :: 0 <= j < i ==> !Lockable(vault[j], me, asset, amount)
  {
    TwoFiltersAreOne(me, asset, amount, vault);
    i := FirstOfLockables(me, asset, amount, vault);
  }

  lemma {:induction false} FirstOfLockables(me: Party, asset: Asset, amount: int, vault: seq<UTXO>) returns (i: nat)
    requires Lockables(vault, me, asset, amount) != []
    ensures i < |vault| && vault[i] == Lockables(vault, me, asset, amount)[0]
    ensures Lockable(vault[i], me, asset, amount)
    ensures forall j :: 0 <= j < i ==> !Lockable(vault[j], me, asset, amount)
  {
    if Lockable(vault[0], me, asset, amount) {
      i := 0;
    } else {
      var tail := vault[1..];
      var k := FirstOfLockables(me, asset, amount, tail);
      i := k + 1;
      assert vault[i] == tail[k];
      forall j | 0 <= j < i
        ensures !Lockable(vault[j], me, asset, amount)
      {
        if j > 0 {
          assert vault[j] == tail[j - 1];
        }
      }
    }
  }

  /** Filtering by owner and asset, then by amount, is filtering by lockability. */
  lemma {:induction false} TwoFiltersAreOne(me: Party, asset: Asset, amount: int, vault: seq<UTXO>)
    ensures ExactAmount(MyInputs(vault, me, asset), amount) == Lockables(vault, me, asset, amount)
  {
    if vault != [] {
      var rest := MyInputs(vault[1..], me, asset);
      TwoFiltersAreOne(me, asset, amount, vault[1..]);
      if vault[0].owner == me && vault[0].asset == asset {
        assert MyInputs(vault, me, asset) == [vault[0]] + rest;
        ExactAmountCons(vault[0], rest, amount);
      } else {
        assert MyInputs(vault, me, asset) == rest;
      }
    }
  }

  lemma ExactAmountCons(u: UTXO, coins: seq<UTXO>, amount: int)
    ensures ExactAmount([u] + coins, amount) == (if u.amount == amount then [u] else []) + ExactAmount(coins, amount)
  {
    assert ([u] + coins)[1..] == coins;
  }

  /** The receiver signs what the initiator builds. */
  lemma AcceptorSignsBuilt(me: Party, receiver: Party, asset: Asset, amount: Int32, locktime: int,
                           secretHash: string, freshId: UniqueIdentifier, vault: seq<UTXO>)
    requires BuildLockAt(me, receiver, asset, amount, locktime, secretHash, freshId, vault).Ok?
    ensures AcceptorCheck(BuildLockAt(me, receiver, asset, amount, locktime, secretHash, freshId, vault).value, me) == Ok(())
  {
    LockOutcome(me, receiver, asset, amount, locktime, secretHash, freshId, vault);
  }

  /** For a lockable coin shared by the two parties, the validator accepts the
      built lock exactly when its locktime lies after `now`. */
  lemma BuiltLockAcceptedIff(me: Party, receiver: Party, asset: Asset, amount: Int32, locktime: int,
                             secretHash: string, freshId: UniqueIdentifier, vault: seq<UTXO>, now: int)
    requires me != receiver && IsAvailable(asset) && amount > 0
    requires forall u :: u in vault && Lockable(u, me, asset, amount) ==> u.participants == [me, receiver]
    requires BuildLockAt(me, receiver, asset, amount, locktime, secretHash, freshId, vault).Ok?
    ensures Validate(BuildLockAt(me, receiver, asset, amount, locktime, secretHash, freshId, vault).value, now).Ok?
      <==> locktime > now
  {
    LockOutcome(me, receiver, asset, amount, locktime, secretHash, freshId, vault);
    var tx := BuildLockAt(me, receiver, asset, amount, locktime, secretHash, freshId, vault).value;
    assert UtxoCommands(tx.commands) == tx.commands by {
      assert tx.commands[1..] == [];
    }
    assert AllStates(tx) == [tx.inputs[0], tx.outputs[0]];
    assert Amounts(tx.inputs) == [amount] && Amounts(tx.outputs) == [amount];
    GlobalRulesFrom(tx, Lock, Signers(me, receiver), [me, receiver], asset);
    ValidateIffAdmissible(tx, now);
  }

  /** As written, the lock is accepted only when the duration, read as an
      absolute time, is later than the current time. */
  lemma LockAsWrittenAcceptedIff(me: Party, receiver: Party, asset: Asset, amount: Int32, lockDuration: Int32,
                                 secret: string, freshId: UniqueIdentifier, vault: seq<UTXO>, now: int)
    requires me != receiver && IsAvailable(asset) && amount > 0
    requires forall u :: u in vault && Lockable(u, me, asset, amount) ==> u.participants == [me, receiver]
    requires BuildLock(me, receiver, asset, amount, lockDuration, secret, freshId, vault).Ok?
    ensures Validate(BuildLock(me, receiver, asset, amount, lockDuration, secret, freshId, vault).value, now).Ok?
      <==> lockDuration > now
  {
    BuiltLockAcceptedIff(me, receiver, asset, amount, lockDuration, Hash(secret), freshId, vault, now);
  }

  /** With a clock past the largest `Int` (any date after January 2038), no
      lock built as written is ever accepted. */
  lemma LockAsWrittenRejectedAfter2038(me: Party, receiver: Party, asset: Asset, amount: Int32, lockDuration: Int32,
                                       secret: string, freshId: UniqueIdentifier, vault: seq<UTXO>, now: int)
    requires now >= INT32_MAX
    requires BuildLock(me, receiver, asset, amount, lockDuration, secret, freshId, vault).Ok?
    ensures Validate(BuildLock(me, receiver, asset, amount, lockDuration, secret, freshId, vault).value, now).Err?
  {
    LockOutcome(me, receiver, asset, amount, lockDuration, Hash(secret), freshId, vault);
  }

  /** Corrected, the lock is accepted exactly when the duration is positive. */
  lemma LockCorrectedAcceptedIff(me: Party, receiver: Party, asset: Asset, amount: Int32, lockDuration: Int32,
                                 secretHash: string, freshId: UniqueIdentifier, vault: seq<UTXO>, now: int)
    requires me != receiver && IsAvailable(asset) && amount > 0
    requires forall u :: u in vault && Lockable(u, me, asset, amount) ==> u.participants == [me, receiver]
    requires BuildLockCorrected(me, receiver, asset, amount, lockDuration, secretHash, freshId, vault, now).Ok?
    ensures Validate(BuildLockCorrected(me, receiver, asset, amount, lockDuration, secretHash, freshId, vault, now).value, now).Ok?
      <==> lockDuration > 0
  {
    var locktime := now + lockDuration;
    assert BuildLockCorrected(me, receiver, asset, amount, lockDuration, secretHash, freshId, vault, now)
      == BuildLockAt(me, receiver, asset, amount, locktime, secretHash, freshId, vault);
    BuiltLockAcceptedIff(me, receiver, asset, amount, locktime, secretHash, freshId, vault, now);
  }
}

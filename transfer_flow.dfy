/** TransferFlow: the initiator sends `amount` of `asset` to `receiver`. It
    takes its own coins of the asset from the vault, picks the shortest prefix
    of them that covers the amount, pays the receiver and, when the coins are
    worth more, pays the difference back to itself. The acceptor signs only
    coin-to-coin transactions that spend the initiator's coins. */
module TransferFlow {
  import opened Wrappers
  import opened Ledger
  import opened Assets
  import opened UtxoState
  import opened Transactions
  import opened UtxoContract
  import opened UtxoContractProperties
  import opened Flows

  /** `acc.map { it.state.data.amount }.sum()`, in `Int`. */
  function CoinSum(coins: seq<UTXO>): Int32
  {
    SumInt32(CoinAmounts(coins))
  }

  /** `pickEnoughCoins(inputs, acc)`: grow `acc` by the next candidate until its
      sum reaches `amount`, throwing when the candidates run out. The flow calls
      it with the empty default `acc`. */
  function PickEnoughCoins(inputs: seq<UTXO>, amount: Int32, acc: seq<UTXO>): (r: Result<seq<UTXO>, FlowError>)
    requires |acc| <= |inputs|
    ensures r.Ok? ==> CoinSum(r.value) >= amount && acc <= r.value && |r.value| <= |inputs|
    ensures r.Err? ==> r.error.InsufficientBalance? && r.error.required == amount
    decreases |inputs| - |acc|
  {
    var sum := CoinSum(acc);
    if sum >= amount then Ok(acc)
    else if |inputs| == |acc| then Err(InsufficientBalance(amount, sum))
    else PickEnoughCoins(inputs, amount, acc + [inputs[|acc|]])
  }

  /** The selection: the shortest prefix of the candidates whose sum reaches
      `amount`; when no prefix does, the insufficient-balance failure reporting
      the sum of all candidates. */
  function PickCoins(inputs: seq<UTXO>, amount: Int32): (r: Result<seq<UTXO>, FlowError>)
    ensures r.Ok? ==>
      && r.value <= inputs
      && CoinSum(r.value) >= amount
      && forall k :: 0 <= k < |r.value| ==> CoinSum(inputs[..k]) < amount
    ensures r.Err? ==>
      && r.error == InsufficientBalance(amount, CoinSum(inputs))
      && forall k :: 0 <= k <= |inputs| ==> CoinSum(inputs[..k]) < amount
    ensures amount <= 0 ==> r == Ok([])
  {
    PickInvariant(inputs, amount, []);
    PickEnoughCoins(inputs, amount, [])
  }

  /** Each step keeps `acc` a prefix of the candidates whose proper prefixes
      all fall short of `amount`. */
  lemma {:induction false} PickInvariant(inputs: seq<UTXO>, amount: Int32, acc: seq<UTXO>)
    requires acc <= inputs
    requires forall k :: 0 <= k < |acc| ==> CoinSum(inputs[..k]) < amount
    ensures
      var r := PickEnoughCoins(inputs, amount, acc);
      && (r.Ok? ==>
            && r.value <= inputs
            && CoinSum(r.value) >= amount
            && forall k :: 0 <= k < |r.value| ==> CoinSum(inputs[..k]) < amount)
      && (r.Err? ==>
            && r.error == InsufficientBalance(amount, CoinSum(inputs))
            && forall k :: 0 <= k <= |inputs| ==> CoinSum(inputs[..k]) < amount)
    decreases |inputs| - |acc|
  {
    if CoinSum(acc) >= amount {
    } else if |inputs| == |acc| {
      assert acc == inputs;
      assert inputs[..|inputs|] == inputs;
    } else {
      var acc' := acc + [inputs[|acc|]];
      assert acc == inputs[..|acc|];
      assert acc' <= inputs by {
        assert inputs[..|acc'|] == inputs[..|acc|] + [inputs[|acc|]];
      }
      forall k | 0 <= k < |acc'|
        ensures CoinSum(inputs[..k]) < amount
      {
        if k == |acc| {
          assert inputs[..k] == acc;
        }
      }
      PickInvariant(inputs, amount, acc');
    }
  }

  /** `sumToSend - amount`, in `Int`. */
  function Change(coins: seq<UTXO>, amount: Int32): (r: Int32)
    ensures INT32_MIN <= CoinSum(coins) - amount <= INT32_MAX ==> r == CoinSum(coins) - amount
    ensures (r - (CoinSum(coins) - amount)) % 0x1_0000_0000 == 0
  {
    Wrap32(CoinSum(coins) - amount)
  }

  /** The build step of the initiator's `call()`, as the transaction it builds:
      inputs are the picked coins, outputs the receiver's coin and then, if any,
      the change coin, and one Transfer command signed by both parties. Both
      coins are constructed with participants `[me, receiver]`, which always
      passes their `init` block (`ConstructionSucceeds`). */
  function BuildTransfer(me: Party, receiver: Party, asset: Asset, amount: Int32, vault: seq<UTXO>): (r: Result<Transaction, FlowError>)
    ensures r == Err(NoUtxoFound) <==> forall u :: u in vault ==> u.owner != me || u.asset != asset
    ensures r.Ok? ==>
      && |r.value.outputs| >= 1
      && r.value.outputs[0] == Utxo(UTXO(receiver, asset, amount, [me, receiver]))
      && forall s :: s in r.value.inputs ==> s.Utxo? && s.utxo in vault && s.utxo.owner == me && s.utxo.asset == asset
  {
    var myInputs := MyInputs(vault, me, asset);
    if myInputs == [] then Err(NoUtxoFound)
    else
      assert myInputs[0] in myInputs;
      var destination := UTXO(receiver, asset, amount, [me, receiver]);
      match PickCoins(myInputs, amount)
      case Err(e) => Err(e)
      case Ok(coins) =>
        var change := Change(coins, amount);
        var cmd := Command(UtxoCmd(Transfer), Signers(me, receiver));
        if change > 0 then
          Ok(Transaction(AsStates(coins), [Utxo(destination), Utxo(UTXO(me, asset, change, [me, receiver]))], [cmd]))
        else Ok(Transaction(AsStates(coins), [Utxo(destination)], [cmd]))
  }

  /** The receiver's coin and the change coin always pass construction. */
  lemma ConstructionSucceeds(me: Party, receiver: Party, asset: Asset, amount: Int32)
    ensures UtxoState.New(receiver, asset, amount, [me, receiver]) == Ok(UTXO(receiver, asset, amount, [me, receiver]))
    ensures UtxoState.New(me, asset, amount, [me, receiver]) == Ok(UTXO(me, asset, amount, [me, receiver]))
  {
  }

  /** The initiator's `call()` up to signing, filling a `TransactionBuilder`
      in the source's order. */
  method Initiate(me: Party, receiver: Party, asset: Asset, amount: Int32, vault: seq<UTXO>)
    returns (r: Result<Transaction, FlowError>)
    ensures r == BuildTransfer(me, receiver, asset, amount, vault)
  {
    var myInputs := MyInputs(vault, me, asset);
    if myInputs == [] {
      return Err(NoUtxoFound);
    }
    var destination := UTXO(receiver, asset, amount, [me, receiver]);
    var picked := PickCoins(myInputs, amount);
    if picked.Err? {
      return Err(picked.error);
    }
    var coins := picked.value;
    var change := Change(coins, amount);
    var builder := new TransactionBuilder();
    builder.AddCommand(UtxoCmd(Transfer), Signers(me, receiver));
    builder.AddOutputState(Utxo(destination));
    builder.AddInputCoins(coins);
    if change > 0 {
      builder.AddOutputState(Utxo(UTXO(me, asset, change, [me, receiver])));
      assert builder.outputs == [Utxo(destination), Utxo(UTXO(me, asset, change, [me, receiver]))];
    } else {
      assert builder.outputs == [Utxo(destination)];
    }
    assert builder.inputs == AsStates(coins);
    assert builder.commands == [Command(UtxoCmd(Transfer), Signers(me, receiver))];
    r := Ok(builder.ToTransaction());
  }

  /** The acceptor's `checkTransaction`, for the initiating party `initiator`. */
  function AcceptorCheck(tx: Transaction, initiator: Party): (r: Result<(), Refusal>)
    ensures r.Ok? <==>
      && (forall s :: s in tx.outputs ==> s.Utxo?)
      && (forall s :: s in tx.inputs ==> s.Utxo? && s.utxo.owner == initiator)
  {
    if !(forall s :: s in tx.inputs + tx.outputs ==> s.Utxo?) then Err(InputNotUtxo)
    else if !(forall s :: s in tx.inputs ==> s.utxo.owner == initiator) then Err(InputNotOwned)
    else Ok(())
  }

  /** What the flow builds: it fails exactly when the initiator has no coin of
      the asset or its coins fall short; otherwise it spends the shortest
      covering prefix of its coins, pays the receiver `amount`, and returns
      the change to itself only when there is some. */
  lemma TransferOutcome(me: Party, receiver: Party, asset: Asset, amount: Int32, vault: seq<UTXO>)
    ensures
      var mine := MyInputs(vault, me, asset);
      var r := BuildTransfer(me, receiver, asset, amount, vault);
      && (mine == [] ==> r == Err(NoUtxoFound))
      && (mine != [] && PickCoins(mine, amount).Err? ==> r == Err(InsufficientBalance(amount, CoinSum(mine))))
      && (mine != [] && PickCoins(mine, amount).Ok? ==>
            var coins := PickCoins(mine, amount).value;
            && r.Ok?
            && r.value.inputs == AsStates(coins)
            && coins <= mine
            && r.value.outputs[0] == Utxo(UTXO(receiver, asset, amount, [me, receiver]))
            && (Change(coins, amount) > 0 ==>
                  r.value.outputs == [r.value.outputs[0], Utxo(UTXO(me, asset, Change(coins, amount), [me, receiver]))])
            && (Change(coins, amount) <= 0 ==> |r.value.outputs| == 1)
            && r.value.commands == [Command(UtxoCmd(Transfer), [OwningKey(me), OwningKey(receiver)])])
  {
  }

  /** For a positive amount the change is the exact difference and never
      negative, and the outputs are worth exactly what the picked coins add up
      to in `Int`. */
  lemma {:induction false} ChangeNonNegative(me: Party, receiver: Party, asset: Asset, amount: Int32, vault: seq<UTXO>)
    requires amount > 0
    requires BuildTransfer(me, receiver, asset, amount, vault).Ok?
    ensures
      var tx := BuildTransfer(me, receiver, asset, amount, vault).value;
      var coins := PickCoins(MyInputs(vault, me, asset), amount).value;
      && Change(coins, amount) == CoinSum(coins) - amount >= 0
      && Sum(Amounts(tx.outputs)) == SumInt32(Amounts(tx.inputs))
  {
    var tx := BuildTransfer(me, receiver, asset, amount, vault).value;
    var coins := PickCoins(MyInputs(vault, me, asset), amount).value;
    TransferOutcome(me, receiver, asset, amount, vault);
    AmountsOfStates(coins);
    var change := Change(coins, amount);
    assert SumInt32(Amounts(tx.inputs)) == CoinSum(coins);
    assert change == CoinSum(coins) - amount;
    var outs := Amounts(tx.outputs);
    if change > 0 {
      assert outs == [amount, change] && outs[1..] == [change] && outs[1..][1..] == [];
      assert Sum([change]) == change + Sum([]);
      assert Sum(outs) == amount + Sum(outs[1..]);
    } else {
      assert outs == [amount] && outs[1..] == [];
    }
  }

  /** The counterparty signs everything the flow builds. */
  lemma AcceptorSignsBuilt(me: Party, receiver: Party, asset: Asset, amount: Int32, vault: seq<UTXO>)
    requires BuildTransfer(me, receiver, asset, amount, vault).Ok?
    ensures AcceptorCheck(BuildTransfer(me, receiver, asset, amount, vault).value, me) == Ok(())
  {
    var tx := BuildTransfer(me, receiver, asset, amount, vault).value;
    var mine := MyInputs(vault, me, asset);
    TransferOutcome(me, receiver, asset, amount, vault);
    var coins := PickCoins(mine, amount).value;
    forall s | s in tx.inputs
      ensures s.Utxo? && s.utxo.owner == me
    {
      var i :| 0 <= i < |tx.inputs| && tx.inputs[i] == s;
      assert coins[i] in mine;
    }
  }

  /** A prefix of positive amounts adds up to no more than all of them. */
  lemma PrefixSumBound(xs: seq<int>, k: nat)
    requires k <= |xs|
    requires forall i :: 0 <= i < |xs| ==> xs[i] > 0
    ensures 0 <= Sum(xs[..k]) <= Sum(xs)
  {
    assert xs == xs[..k] + xs[k..];
    SumAppend(xs[..k], xs[k..]);
    SumPositive(xs[..k]);
    SumPositive(xs[k..]);
  }

  /** With positive coins whose total fits in `Int`, the picked coins' `Int`
      sum is their true sum. */
  lemma PickedSumExact(mine: seq<UTXO>, coins: seq<UTXO>)
    requires coins <= mine
    requires forall u :: u in mine ==> u.amount > 0
    requires Sum(CoinAmounts(mine)) <= INT32_MAX
    ensures CoinSum(coins) == Sum(CoinAmounts(coins)) >= 0
  {
    var xs := CoinAmounts(mine);
    assert CoinAmounts(coins) == xs[..|coins|];
    forall i | 0 <= i < |xs| ensures xs[i] > 0 {
      assert mine[i] in mine;
    }
    PrefixSumBound(xs, |coins|);
    SumInt32Exact(CoinAmounts(coins));
  }

  /** Every state of a built transfer is a coin of `asset` with participants
      `[me, receiver]` and a positive amount, when the initiator's coins are. */
  lemma BuiltStates(me: Party, receiver: Party, asset: Asset, amount: Int32, vault: seq<UTXO>)
    requires amount > 0
    requires BuildTransfer(me, receiver, asset, amount, vault).Ok?
    requires forall u :: u in MyInputs(vault, me, asset) ==> u.participants == [me, receiver] && u.amount > 0
    ensures
      var tx := BuildTransfer(me, receiver, asset, amount, vault).value;
      && tx.inputs != []
      && tx.inputs[0].Utxo? && tx.outputs[0].Utxo?
      && UtxosOf(tx.inputs) == PickCoins(MyInputs(vault, me, asset), amount).value
      && forall s :: s in AllStates(tx) ==>
           s.Utxo? && s.utxo.participants == [me, receiver] && s.utxo.asset == asset && s.utxo.amount > 0
           && (s in tx.outputs ==> s.utxo.owner == me || s.utxo.owner == receiver)
  {
    var tx := BuildTransfer(me, receiver, asset, amount, vault).value;
    var mine := MyInputs(vault, me, asset);
    TransferOutcome(me, receiver, asset, amount, vault);
    var coins := PickCoins(mine, amount).value;
    assert coins != [];
    UtxosOfStates(coins);
    forall s | s in AllStates(tx)
      ensures s.Utxo? && s.utxo.participants == [me, receiver] && s.utxo.asset == asset && s.utxo.amount > 0
      ensures s in tx.outputs ==> s.utxo.owner == me || s.utxo.owner == receiver
    {
      if s in tx.inputs {
        var i :| 0 <= i < |tx.inputs| && tx.inputs[i] == s;
        assert coins[i] in mine;
      }
    }
  }

  /** End to end: when the initiator's coins of an allowed asset all have the
      participant list `[me, receiver]` and positive amounts that add up to no
      more than the `Int` range, the transaction the flow builds for a positive
      amount passes the validator. */
  lemma BuiltTransferAccepted(me: Party, receiver: Party, asset: Asset, amount: Int32, vault: seq<UTXO>, now: int)
    requires amount > 0 && IsAvailable(asset)
    requires BuildTransfer(me, receiver, asset, amount, vault).Ok?
    requires forall u :: u in MyInputs(vault, me, asset) ==> u.participants == [me, receiver] && u.amount > 0
    requires Sum(CoinAmounts(MyInputs(vault, me, asset))) <= INT32_MAX
    ensures Validate(BuildTransfer(me, receiver, asset, amount, vault).value, now) == Ok(())
  {
    var tx := BuildTransfer(me, receiver, asset, amount, vault).value;
    var mine := MyInputs(vault, me, asset);
    TransferOutcome(me, receiver, asset, amount, vault);
    var coins := PickCoins(mine, amount).value;
    BuiltStates(me, receiver, asset, amount, vault);
    ChangeNonNegative(me, receiver, asset, amount, vault);
    PickedSumExact(mine, coins);
    AmountsOfStates(coins);
    TransferTxAccepted(tx, me, receiver, asset, now);
  }

  /** A Transfer between coins sharing `[me, receiver]`, one allowed asset and
      positive amounts, conserving value and paying only `me` or `receiver`,
      signed by both, is accepted. */
  lemma TransferTxAccepted(tx: Transaction, me: Party, receiver: Party, asset: Asset, now: int)
    requires tx.commands == [Command(UtxoCmd(Transfer), Signers(me, receiver))]
    requires tx.inputs != [] && tx.outputs != []
    requires forall s :: s in AllStates(tx) ==>
           s.Utxo? && s.utxo.participants == [me, receiver] && s.utxo.asset == asset && s.utxo.amount > 0
           && (s in tx.outputs ==> s.utxo.owner == me || s.utxo.owner == receiver)
    requires IsAvailable(asset)
    requires Sum(Amounts(tx.inputs)) == Sum(Amounts(tx.outputs))
    ensures Validate(tx, now) == Ok(())
  {
    var signers := Signers(me, receiver);
    assert UtxoCommands(tx.commands) == tx.commands by {
      assert tx.commands[1..] == [];
    }
    GlobalRulesFrom(tx, Transfer, signers, [me, receiver], asset);
    assert tx.inputs[0] in AllStates(tx) && tx.outputs[0] in AllStates(tx);
    assert CommandRules(tx, Transfer, now) by {
      assert tx.inputs[0].Utxo? && tx.outputs[0].Utxo?;
      assert tx.inputs[0].utxo in UtxosOf(tx.inputs);
      var first := UtxosOf(tx.inputs)[0];
      assert Utxo(first) in tx.inputs;
      assert Utxo(first) in AllStates(tx);
      forall u | Utxo(u) in tx.outputs ensures u.owner in first.participants {
        assert Utxo(u) in AllStates(tx);
      }
    }
    ValidateIffAdmissible(tx, now);
  }
}

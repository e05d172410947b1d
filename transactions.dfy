/** The view of a ledger transaction that the contracts and the flows' acceptors
    inspect: ordered input and output states, the commands with their signer
    keys. Every state the contracts see is one of the two fungible states,
    which is how `is FungibleToken` is read here. */
module Transactions {
  import opened Ledger
  import opened Assets
  import opened UtxoState
  import opened HtlcState

  datatype State = Utxo(utxo: UTXO) | Htlc(htlc: HTLC)

  /** The commands of UTXOContract. */
  datatype UtxoCommand = Mint | Burn | Transfer | Lock | Unlock | Convert

  /** The commands of the deprecated HTLCContract. */
  datatype HtlcCommand = HtlcLock | HtlcUnlock

  /** A command's value: one of either contract's commands, or a command that
      belongs to some other contract. */
  datatype CommandValue = UtxoCmd(utxoCmd: UtxoCommand) | HtlcCmd(htlcCmd: HtlcCommand) | OtherCmd(tag: nat)

  datatype Command = Command(value: CommandValue, signers: seq<PublicKey>)

  datatype Transaction = Transaction(inputs: seq<State>, outputs: seq<State>, commands: seq<Command>)

  function Participants(s: State): seq<Party>
  {
    match s
    case Utxo(u) => u.participants
    case Htlc(h) => h.participants
  }

  function AssetOf(s: State): Asset
  {
    match s
    case Utxo(u) => u.asset
    case Htlc(h) => h.asset
  }

  function AmountOf(s: State): Int32
  {
    match s
    case Utxo(u) => u.amount
    case Htlc(h) => h.amount
  }

  /** The `init` invariants of whichever state it is. */
  predicate StateValid(s: State)
  {
    match s
    case Utxo(u) => UtxoState.Valid(u)
    case Htlc(h) => HtlcState.Valid(h)
  }

  /** Every state of the transaction was constructed, so satisfies its invariants. */
  predicate WellFormed(tx: Transaction)
  {
    (forall s :: s in tx.inputs ==> StateValid(s)) && (forall s :: s in tx.outputs ==> StateValid(s))
  }

  /** `inputsOfType<UTXO>()` / `outputsOfType<UTXO>()`: the UTXOs, in order. */
  function UtxosOf(ss: seq<State>): (us: seq<UTXO>)
    ensures forall u :: u in us <==> Utxo(u) in ss
    ensures |us| <= |ss|
    ensures (forall s :: s in ss ==> s.Utxo?) ==> |us| == |ss|
  {
    if ss == [] then []
    else (if ss[0].Utxo? then [ss[0].utxo] else []) + UtxosOf(ss[1..])
  }

  /** `inputsOfType<HTLC>()` / `outputsOfType<HTLC>()`: the HTLCs, in order. */
  function HtlcsOf(ss: seq<State>): (hs: seq<HTLC>)
    ensures forall h :: h in hs <==> Htlc(h) in ss
    ensures |hs| <= |ss|
    ensures (forall s :: s in ss ==> s.Htlc?) ==> |hs| == |ss|
  {
    if ss == [] then []
    else (if ss[0].Htlc? then [ss[0].htlc] else []) + HtlcsOf(ss[1..])
  }

  /** The commands whose value belongs to UTXOContract, in order. */
  function UtxoCommands(cs: seq<Command>): (r: seq<Command>)
    ensures forall c :: c in r <==> c in cs && c.value.UtxoCmd?
  {
    if cs == [] then []
    else (if cs[0].value.UtxoCmd? then [cs[0]] else []) + UtxoCommands(cs[1..])
  }

  /** The commands whose value belongs to HTLCContract, in order. */
  function HtlcCommands(cs: seq<Command>): (r: seq<Command>)
    ensures forall c :: c in r <==> c in cs && c.value.HtlcCmd?
  {
    if cs == [] then []
    else (if cs[0].value.HtlcCmd? then [cs[0]] else []) + HtlcCommands(cs[1..])
  }

  function Amounts(ss: seq<State>): (xs: seq<Int32>)
    ensures |xs| == |ss|
    ensures forall i :: 0 <= i < |ss| ==> xs[i] == AmountOf(ss[i])
  {
    if ss == [] then [] else [AmountOf(ss[0])] + Amounts(ss[1..])
  }

  /** The mathematical sum. */
  function Sum(xs: seq<int>): int
  {
    if xs == [] then 0 else xs[0] + Sum(xs[1..])
  }

  /** Kotlin's `List<Int>.sum()`: an `Int` accumulator, `sum += e` left to right,
      wrapping on overflow. */
  function SumInt32(xs: seq<Int32>): Int32
  {
    SumInt32From(0, xs)
  }

  function SumInt32From(acc: Int32, xs: seq<Int32>): Int32
    decreases |xs|
  {
    if xs == [] then acc else SumInt32From(Wrap32(acc + xs[0]), xs[1..])
  }

  /** The wrapping sum is the true sum reduced into `Int`. */
  lemma {:induction false} SumInt32IsWrappedSum(acc: Int32, xs: seq<Int32>)
    ensures SumInt32From(acc, xs) == Wrap32(acc + Sum(xs))
    decreases |xs|
  {
    if xs != [] {
      var a' := Wrap32(acc + xs[0]);
      SumInt32IsWrappedSum(a', xs[1..]);
      WrapCongruent(a' + Sum(xs[1..]), acc + Sum(xs));
    }
  }

  lemma WrapCongruent(x: int, y: int)
    requires (x - y) % 0x1_0000_0000 == 0
    ensures Wrap32(x) == Wrap32(y)
  {
    var m := 0x1_0000_0000;
    var k := (x - y) / m;
    assert x == y + k * m;
    assert (x + 0x8000_0000) % m == (y + 0x8000_0000 + k * m) % m;
    ModShift(y + 0x8000_0000, k);
  }

  lemma ModShift(a: int, k: int)
    ensures (a + k * 0x1_0000_0000) % 0x1_0000_0000 == a % 0x1_0000_0000
  {
  }

  /** While the true sum fits in `Int`, the wrapping sum is exact. */
  lemma SumInt32Exact(xs: seq<Int32>)
    requires INT32_MIN <= Sum(xs) <= INT32_MAX
    ensures SumInt32(xs) == Sum(xs)
  {
    SumInt32IsWrappedSum(0, xs);
  }

  /** A sum of positive amounts is positive and at least each amount. */
  lemma {:induction false} SumPositive(xs: seq<int>)
    requires forall i :: 0 <= i < |xs| ==> xs[i] > 0
    ensures |xs| > 0 ==> Sum(xs) > 0
    ensures Sum(xs) >= 0
    ensures Sum(xs) >= |xs|
  {
    if xs != [] {
      SumPositive(xs[1..]);
    }
  }

  lemma {:induction false} SumAppend(xs: seq<int>, ys: seq<int>)
    ensures Sum(xs + ys) == Sum(xs) + Sum(ys)
  {
    if xs == [] {
      assert xs + ys == ys;
    } else {
      assert (xs + ys)[0] == xs[0] && (xs + ys)[1..] == xs[1..] + ys;
      SumAppend(xs[1..], ys);
    }
  }
}

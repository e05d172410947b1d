/** The value state `UTXO`: an owned amount of one asset, visible to a list of
    participants. The data class's `init` block is the predicate `Valid`;
    constructing through `New` fails with the first broken requirement. */
module UtxoState {
  import opened Wrappers
  import opened Ledger
  import opened Assets

  datatype UTXO = UTXO(owner: Party, asset: Asset, amount: Int32, participants: seq<Party>)

  /** Failures of the `init` block, in the order it checks them. */
  datatype UtxoError = OwnerNotParticipant | TooFewParticipants(given: nat)

  /** The invariants every constructed UTXO satisfies. */
  predicate Valid(u: UTXO)
  {
    u.owner in u.participants && |u.participants| >= 2
  }

  /** The primary constructor, running the `init` block. */
  function New(owner: Party, asset: Asset, amount: Int32, participants: seq<Party>): (r: Result<UTXO, UtxoError>)
    ensures r.Ok? <==> owner in participants && |participants| >= 2
    ensures r.Ok? ==> r.value == UTXO(owner, asset, amount, participants) && Valid(r.value)
    ensures owner !in participants ==> r == Err(OwnerNotParticipant)
    ensures owner in participants && |participants| < 2 ==> r == Err(TooFewParticipants(|participants|))
  {
    if owner !in participants then Err(OwnerNotParticipant)
    else if |participants| < 2 then Err(TooFewParticipants(|participants|))
    else Ok(UTXO(owner, asset, amount, participants))
  }

  /** The primary constructor with its default participant list `[owner]`. */
  function NewDefault(owner: Party, asset: Asset, amount: Int32): Result<UTXO, UtxoError>
  {
    New(owner, asset, amount, [owner])
  }

  /** The secondary constructor naming one counterparty. */
  function NewWithCounterparty(owner: Party, asset: Asset, amount: Int32, counterparty: Party): (r: Result<UTXO, UtxoError>)
    ensures r.Ok? && Valid(r.value)
    ensures r.value == UTXO(owner, asset, amount, [owner, counterparty])
  {
    New(owner, asset, amount, [owner, counterparty])
  }

  /** `withParticipants(p)`: a copy with `p` appended to the participants. */
  function WithParticipants(u: UTXO, p: seq<Party>): (r: Result<UTXO, UtxoError>)
    ensures r.Ok? <==> Valid(u.(participants := u.participants + p))
    ensures r.Ok? ==> r.value == u.(participants := u.participants + p)
  {
    New(u.owner, u.asset, u.amount, u.participants + p)
  }

  /** The default participant list is always too short. */
  lemma DefaultAlwaysFails(owner: Party, asset: Asset, amount: Int32)
    ensures NewDefault(owner, asset, amount) == Err(TooFewParticipants(1))
  {
  }

  /** Duplicates are not rejected: `[owner, owner]` passes construction. */
  lemma DuplicateParticipantsAccepted(owner: Party, asset: Asset, amount: Int32)
    ensures New(owner, asset, amount, [owner, owner]).Ok?
  {
  }

  /** Appending participants to a valid UTXO succeeds, keeps owner, asset and
      amount, appends at the end, and the copy is valid again. */
  lemma WithParticipantsPreserves(u: UTXO, p: seq<Party>)
    requires Valid(u)
    ensures WithParticipants(u, p).Ok?
    ensures var v := WithParticipants(u, p).value;
      v.owner == u.owner && v.asset == u.asset && v.amount == u.amount
      && v.participants == u.participants + p && Valid(v)
  {
  }
}

/** The escrow state `HTLC`: an amount locked by `sender` for `receiver`,
    released to the receiver by the preimage of `secretHash` before `locktime`,
    or back to the sender afterwards. It is a linear state tracked by
    `linearId`. Every transformer is a `copy`, which runs the `init` block
    again, so each returns a `Result`. */
module HtlcState {
  import opened Wrappers
  import opened Ledger
  import opened Assets
  import opened Hashing

  datatype HTLC = HTLC(
    sender: Party,
    receiver: Party,
    asset: Asset,
    amount: Int32,
    secret: Option<string>,
    secretHash: string,
    locktime: int,
    linearId: UniqueIdentifier,
    participants: seq<Party>)

  /** Failures of the `init` block, in the order it checks them. */
  datatype HtlcError = TooFewParticipants(given: nat) | SecretDoesNotMatchHash

  /** `isSecretValid()`: a secret is present and hashes to `secretHash`. */
  predicate IsSecretValid(h: HTLC)
    ensures IsSecretValid(h) ==> h.secret.Some? && |h.secretHash| == 64
  {
    h.secret.Some? && Hash(h.secret.value) == h.secretHash
  }

  /** The invariants every constructed HTLC satisfies. */
  predicate Valid(h: HTLC)
  {
    |h.participants| >= 2 && (h.secret.None? || Hash(h.secret.value) == h.secretHash)
  }

  /** Runs the `init` block on a field record. */
  function Check(h: HTLC): (r: Result<HTLC, HtlcError>)
    ensures r.Ok? <==> Valid(h)
    ensures r.Ok? ==> r.value == h
    ensures |h.participants| < 2 ==> r == Err(TooFewParticipants(|h.participants|))
    ensures |h.participants| >= 2 && !Valid(h) ==> r == Err(SecretDoesNotMatchHash)
  {
    if |h.participants| < 2 then Err(TooFewParticipants(|h.participants|))
    else if h.secret.Some? && Hash(h.secret.value) != h.secretHash then Err(SecretDoesNotMatchHash)
    else Ok(h)
  }

  /** The primary constructor with all fields given. */
  function New(sender: Party, receiver: Party, asset: Asset, amount: Int32, secret: Option<string>,
               secretHash: string, locktime: int, linearId: UniqueIdentifier,
               participants: seq<Party>): Result<HTLC, HtlcError>
  {
    Check(HTLC(sender, receiver, asset, amount, secret, secretHash, locktime, linearId, participants))
  }

  /** The constructor with its defaults: participants `[sender, receiver]` and a
      freshly generated `linearId`, which the caller supplies as `freshId`. */
  function NewWithDefaults(sender: Party, receiver: Party, asset: Asset, amount: Int32, secret: Option<string>,
                           secretHash: string, locktime: int, freshId: UniqueIdentifier): Result<HTLC, HtlcError>
  {
    New(sender, receiver, asset, amount, secret, secretHash, locktime, freshId, [sender, receiver])
  }

  /** `withParticipants(p)`: a copy with `p` appended to the participants. */
  function WithParticipants(h: HTLC, p: seq<Party>): (r: Result<HTLC, HtlcError>)
    ensures r.Ok? <==> Valid(h.(participants := h.participants + p))
    ensures r.Ok? ==>
      && r.value.participants == h.participants + p
      && r.value.(participants := h.participants) == h
  {
    Check(h.(participants := h.participants + p))
  }

  /** `withSecret(s)`: a copy carrying the secret `s`. */
  function WithSecret(h: HTLC, s: string): (r: Result<HTLC, HtlcError>)
    ensures r.Ok? <==> |h.participants| >= 2 && Hash(s) == h.secretHash
    ensures r.Ok? ==> r.value.secret == Some(s) && r.value.(secret := h.secret) == h
    ensures |h.participants| >= 2 && Hash(s) != h.secretHash ==> r == Err(SecretDoesNotMatchHash)
  {
    Check(h.(secret := Some(s)))
  }

  /** `withoutSecret()`: a copy with the secret cleared. */
  function WithoutSecret(h: HTLC): (r: Result<HTLC, HtlcError>)
    ensures r.Ok? <==> |h.participants| >= 2
    ensures r.Ok? ==> r.value.secret.None? && r.value.(secret := h.secret) == h
  {
    Check(h.(secret := None))
  }

  /** With default participants the only possible failure is a secret that
      does not match; without a secret construction always succeeds. */
  lemma DefaultsConstruction(sender: Party, receiver: Party, asset: Asset, amount: Int32, secret: Option<string>,
                             secretHash: string, locktime: int, freshId: UniqueIdentifier)
    ensures var r := NewWithDefaults(sender, receiver, asset, amount, secret, secretHash, locktime, freshId);
      && (r.Ok? <==> secret.None? || Hash(secret.value) == secretHash)
      && (r.Ok? ==> r.value.participants == [sender, receiver] && r.value.linearId == freshId)
  {
  }

  /** A constructed HTLC that carries a secret has a valid secret. */
  lemma ValidSecretIsValid(h: HTLC)
    requires Valid(h) && h.secret.Some?
    ensures IsSecretValid(h)
  {
  }

  /** `withSecret(s)` succeeds exactly when `s` hashes to `secretHash` (for a
      valid HTLC), and changes nothing but the secret. */
  lemma WithSecretChangesOnlySecret(h: HTLC, s: string)
    requires Valid(h)
    ensures WithSecret(h, s).Ok? <==> Hash(s) == h.secretHash
    ensures WithSecret(h, s).Ok? ==>
      WithSecret(h, s).value == h.(secret := Some(s)) && IsSecretValid(WithSecret(h, s).value)
  {
  }

  /** `withoutSecret()` clears the secret, changes nothing else, and on a valid
      HTLC always succeeds. */
  lemma WithoutSecretClears(h: HTLC)
    requires Valid(h)
    ensures WithoutSecret(h) == Ok(h.(secret := None))
    ensures !IsSecretValid(WithoutSecret(h).value)
  {
  }

  /** Clearing the secret twice is clearing it once. */
  lemma WithoutSecretIdempotent(h: HTLC)
    requires WithoutSecret(h).Ok?
    ensures WithoutSecret(WithoutSecret(h).value) == WithoutSecret(h)
  {
  }

  /** Adding a secret and clearing it again gives the same as clearing it. */
  lemma WithSecretThenWithout(h: HTLC, s: string)
    requires WithSecret(h, s).Ok?
    ensures WithoutSecret(WithSecret(h, s).value) == WithoutSecret(h)
  {
  }

  /** Appending participants keeps every other field and keeps validity. */
  lemma WithParticipantsPreserves(h: HTLC, p: seq<Party>)
    requires Valid(h)
    ensures WithParticipants(h, p) == Ok(h.(participants := h.participants + p))
  {
  }

  /** Fewer than two participants always fails construction. */
  lemma TooFewAlwaysFails(h: HTLC)
    requires |h.participants| < 2
    ensures Check(h).Err? && Check(h).error.TooFewParticipants?
  {
  }

  /** The committed hash of any secret is 64 lowercase hex characters. */
  lemma SecretHashShape(h: HTLC)
    requires IsSecretValid(h)
    ensures |h.secretHash| == 64
    ensures forall i :: 0 <= i < |h.secretHash| ==> IsLowerHexDigit(h.secretHash[i])
  {
    HashShape(h.secret.value);
  }
}

/** The ledger primitives the states and contracts are written against:
    identities, their owning keys, linear identifiers and the 32-bit `Int`
    that amounts are declared with. */
module Ledger {

  /** An identity on the network, compared by identity. */
  datatype Party = Party(id: nat)

  /** A public key; the signers of a command are a list of these. */
  datatype PublicKey = PublicKey(id: nat)

  /** The key a party signs with. Distinct parties own distinct keys. */
  function OwningKey(p: Party): PublicKey
  {
    PublicKey(p.id)
  }

  lemma OwningKeyInjective(p: Party, q: Party)
    ensures OwningKey(p) == OwningKey(q) <==> p == q
  {
  }

  /** The keys of a participant list, in list order (`part.map { it.owningKey }`). */
  function OwningKeys(ps: seq<Party>): (ks: seq<PublicKey>)
    ensures |ks| == |ps|
    ensures forall i :: 0 <= i < |ps| ==> ks[i] == OwningKey(ps[i])
  {
    if ps == [] then [] else [OwningKey(ps[0])] + OwningKeys(ps[1..])
  }

  /** `containsAll`: every element of `xs` occurs in `ys`, order and multiplicity ignored. */
  predicate ContainsAll<T(==)>(ys: seq<T>, xs: seq<T>)
  {
    forall x :: x in xs ==> x in ys
  }

  /** A `UniqueIdentifier`; a fresh one is supplied by the caller. */
  datatype UniqueIdentifier = UniqueIdentifier(id: nat)

  const INT32_MIN: int := -0x8000_0000
  const INT32_MAX: int := 0x7fff_ffff

  /** Kotlin's `Int`. */
  type Int32 = x: int | -0x8000_0000 <= x <= 0x7fff_ffff

  /** Two's-complement wrap-around of an unbounded integer into `Int`. */
  function Wrap32(x: int): (r: Int32)
    ensures (r - x) % 0x1_0000_0000 == 0
    ensures INT32_MIN <= x <= INT32_MAX ==> r == x
  {
    (x + 0x8000_0000) % 0x1_0000_0000 - 0x8000_0000
  }

  lemma OwningKeysIn(ps: seq<Party>, p: Party)
    ensures OwningKey(p) in OwningKeys(ps) <==> p in ps
  {
    if OwningKey(p) in OwningKeys(ps) {
      var i :| 0 <= i < |ps| && OwningKeys(ps)[i] == OwningKey(p);
    }
  }
}

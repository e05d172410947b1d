/** The asset registry: the abstract `Asset` with its `code` and `decimals`, and
    the two singleton assets BTC and DASH. `Asset` does not override equality,
    so two assets are equal only when they are the same object; `ref` stands
    for that object identity. */
module Assets {

  datatype Asset = Asset(ref: nat, code: string, decimals: int)

  const BTC: Asset := Asset(0, "BTC", 8)
  const DASH: Asset := Asset(1, "DASH", 8)

  /** The assets the contracts accept (`listOf(BTC, DASH)`). */
  const AvailableAssets: seq<Asset> := [BTC, DASH]

  /** `toString()` renders an asset as its code. */
  function ToString(a: Asset): (s: string)
    ensures a == BTC ==> s == "BTC"
    ensures a == DASH ==> s == "DASH"
  {
    a.code
  }

  /** `availableAssets.contains(a)`. */
  predicate IsAvailable(a: Asset)
  {
    a in AvailableAssets
  }

  /** The registry holds exactly BTC and DASH, two distinct assets of 8 decimals. */
  lemma RegistryFacts()
    ensures BTC.code == "BTC" && BTC.decimals == 8
    ensures DASH.code == "DASH" && DASH.decimals == 8
    ensures BTC != DASH
    ensures forall a :: IsAvailable(a) <==> a == BTC || a == DASH
  {
  }

  /** Identity, not the code, decides equality: an asset that merely reuses the
      code "BTC" is a different asset and is not available. */
  lemma EqualityIsIdentity(a: Asset)
    requires a.code == BTC.code && a.decimals == BTC.decimals && a.ref != BTC.ref
    ensures a != BTC && (IsAvailable(a) <==> a == DASH)
  {
  }
}

/** The asset identifiers of `app.py` (`ASSETS_META`) and the two classes
    the price router queries separately. Identifiers are plain strings, as
    in the Python code, so a log may name assets outside the table. */
module Assets {

  type AssetId = string

  const XAU_G: AssetId := "XAU_G"
  const XAG_G: AssetId := "XAG_G"
  const XCU_G: AssetId := "XCU_G"
  const USDTRY: AssetId := "USDTRY"
  const EURTRY: AssetId := "EURTRY"

  /** `ASSETS_META.keys()`, in declaration order. */
  const ASSETS: seq<AssetId> := [XAU_G, XAG_G, XCU_G, USDTRY, EURTRY]

  const FX_IDS: set<AssetId> := {USDTRY, EURTRY}
  const METAL_IDS: set<AssetId> := {XAU_G, XAG_G}

  datatype Meta = Meta(name: string, unit: string)

  /** `ASSETS_META`: display name and unit of each declared asset. */
  const META: map<AssetId, Meta> := map[
    XAU_G := Meta("Gram Alt\U{0131}n", "gr"),
    XAG_G := Meta("Gram G\U{00FC}m\U{00FC}\U{015F}", "gr"),
    XCU_G := Meta("Bak\U{0131}r", "gr"),
    USDTRY := Meta("USD/TRY", "USD"),
    EURTRY := Meta("EUR/TRY", "EUR")
  ]

  /** `asset_label(a)`: the display name of a declared asset, and the
      identifier itself for any other string. */
  function AssetLabel(a: AssetId): (r: string)
    ensures a in ASSETS ==> r == META[a].name && r != a
    ensures a !in ASSETS ==> r == a
  {
    if a in META then META[a].name else a
  }

  /** The declared identifiers are distinct, the table has exactly them as
      keys, and no two of them share a label. */
  lemma AssetsTable()
    ensures forall i, j :: 0 <= i < j < |ASSETS| ==> ASSETS[i] != ASSETS[j]
    ensures forall a :: a in META <==> a in ASSETS
    ensures forall i, j :: 0 <= i < j < |ASSETS| ==> AssetLabel(ASSETS[i]) != AssetLabel(ASSETS[j])
  {
  }
}

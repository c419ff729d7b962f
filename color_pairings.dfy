/**
 * src/constants/colorPairings.ts: the fixed list of colour pairings the
 * user can choose from, and lookup by id with the first pairing as the
 * default.
 */
module ColorPairings {
  import opened Wrappers

  datatype ColorPairingColors = ColorPairingColors(
    background: string,
    primary: string,
    secondary: string,
    textPrimary: string,
    textSecondary: string,
    textDisabled: string)

  datatype ColorPairing = ColorPairing(id: string, name: string, comment: string, colors: ColorPairingColors)

  const ColorPairingList: seq<ColorPairing> := [
    ColorPairing("charcoal-violet-amber", "Charcoal Violet + Amber",
      "Authoritative base with upbeat, clear call-to-action accents.",
      ColorPairingColors("#F4F4FA", "#2C2A4A", "#F4A259", "#1F1C3D", "#5E5A80", "#A6A3C2")),
    ColorPairing("ink-porcelain-signal-blue", "Ink Black + Signal Blue",
      "Crisp contrast with a dependable, modern tech accent.",
      ColorPairingColors("#F8FAFC", "#1F2933", "#2563EB", "#111827", "#4B5563", "#9CA3AF")),
    ColorPairing("graphite-soft-clay-electric-coral", "Graphite + Electric Coral",
      "Warm neutrals with coral bursts to draw quick focus.",
      ColorPairingColors("#FCF7F4", "#2D2A32", "#FF6B6B", "#201A1E", "#6B5E64", "#B3A6AD")),
    ColorPairing("midnight-teal-mist-citrine", "Midnight Teal + Citrine",
      "Sophisticated teal foundation with bright citrine highlights.",
      ColorPairingColors("#F2F5F7", "#124559", "#F4B41A", "#152026", "#4A5B65", "#8A99A4")),
    ColorPairing("slate-spruce-seafoam", "Slate Stone + Seafoam",
      "Balanced slate core with calm spruce and seafoam cues.",
      ColorPairingColors("#F5F7FA", "#35424C", "#3BA99C", "#1F2933", "#52606D", "#98A1B0")),
    ColorPairing("mocha-rose-quartz", "Mocha + Rose Quartz",
      "Boutique warmth where mocha depth meets rose quartz softness.",
      ColorPairingColors("#F9F4F1", "#4B3A33", "#D97D7D", "#322723", "#6E5B53", "#B9A49A"))
  ]

  /** The first pairing's id. */
  const DefaultColorPairingId: string := ColorPairingList[0].id

  /** No two pairings share an id, so an id names at most one pairing. */
  lemma PairingIdsDistinct()
    ensures forall i, j :: 0 <= i < j < |ColorPairingList| ==> ColorPairingList[i].id != ColorPairingList[j].id
  {
  }

  function GetDefaultColorPairing(): (r: ColorPairing)
    ensures r == ColorPairingList[0] && r.id == DefaultColorPairingId
  {
    ColorPairingList[0]
  }

  /** `pairings.find(p => p.id === pairingId)`. */
  function FindPairing(pairings: seq<ColorPairing>, pairingId: string): (r: Option<ColorPairing>)
    ensures r.Some? ==> r.value in pairings && r.value.id == pairingId
    ensures r.None? <==> forall p :: p in pairings ==> p.id != pairingId
  {
    if |pairings| == 0 then None
    else if pairings[0].id == pairingId then Some(pairings[0])
    else FindPairing(pairings[1..], pairingId)
  }

  /** The pairing with that id, or the default pairing when no pairing has it. */
  function GetColorPairingById(pairingId: string): (r: ColorPairing)
    ensures r in ColorPairingList
    ensures (exists p :: p in ColorPairingList && p.id == pairingId) ==> r.id == pairingId
    ensures (forall p :: p in ColorPairingList ==> p.id != pairingId) ==> r == GetDefaultColorPairing()
  {
    FindPairing(ColorPairingList, pairingId).GetOr(GetDefaultColorPairing())
  }

  /** Looking up a listed pairing's id gives back exactly that pairing. */
  lemma LookupListedId(i: nat)
    requires i < |ColorPairingList|
    ensures GetColorPairingById(ColorPairingList[i].id) == ColorPairingList[i]
  {
    PairingIdsDistinct();
  }

  /** The default id looks up the default pairing. */
  lemma LookupDefaultId()
    ensures GetColorPairingById(DefaultColorPairingId) == GetDefaultColorPairing()
  {
    LookupListedId(0);
  }
}

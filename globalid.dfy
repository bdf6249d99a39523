/** Global tile IDs (tiled/tilelayer.go, type GlobalID): a 32-bit unsigned value whose three top
    bits are the orientation flags of the TMX "tile flipping" layout (bit 31 horizontal, bit 30
    vertical, bit 29 diagonal) and whose low 29 bits are the bare ID. The bit masks of the source
    are written here as the equivalent divisions and remainders by powers of two. */
module GlobalIds {

  /** Go's uint32. */
  type u32 = x: int | 0 <= x < 0x1_0000_0000

  type GlobalID = u32
  /** A tileset-local tile ID (Go `TileID`, a uint32). */
  type TileID = u32

  const TileFlippedHorizontally: u32 := 0x8000_0000
  const TileFlippedVertically: u32 := 0x4000_0000
  const TileFlippedDiagonally: u32 := 0x2000_0000

  /** `g &^ TileFlipped`: the low 29 bits. */
  function BareID(g: GlobalID): (r: u32)
    ensures r < 0x2000_0000
    ensures (g - r) % 0x2000_0000 == 0
  {
    g % 0x2000_0000
  }

  /** `g & TileFlippedHorizontally != 0`: bit 31. */
  predicate IsFlippedHorizontally(g: GlobalID)
  {
    (g / TileFlippedHorizontally) % 2 == 1
  }

  /** `g & TileFlippedVertically != 0`: bit 30. */
  predicate IsFlippedVertically(g: GlobalID)
  {
    (g / TileFlippedVertically) % 2 == 1
  }

  /** `g & TileFlippedDiagonally != 0`: bit 29. */
  predicate IsFlippedDiagonally(g: GlobalID)
  {
    (g / TileFlippedDiagonally) % 2 == 1
  }

  /** `GlobalID.TileID(t)`: the bare ID less the tileset's first global ID, modulo 2^32 and
      without any range check. */
  function TileIDOf(g: GlobalID, firstGlobalID: GlobalID): (r: TileID)
    ensures (r + firstGlobalID) % 0x1_0000_0000 == BareID(g)
    ensures firstGlobalID <= BareID(g) ==> r + firstGlobalID == BareID(g)
    ensures firstGlobalID > BareID(g) ==> r + firstGlobalID == BareID(g) + 0x1_0000_0000
  {
    (BareID(g) - firstGlobalID) % 0x1_0000_0000
  }

  /** The global ID with the given flags and bare ID: `flags | bare`. */
  function Compose(h: bool, v: bool, d: bool, bare: u32): GlobalID
    requires bare < 0x2000_0000
  {
    (if h then TileFlippedHorizontally else 0) +
    (if v then TileFlippedVertically else 0) +
    (if d then TileFlippedDiagonally else 0) + bare
  }

  /** Any combination of flag bits over a bare ID below 2^29 reads back as that bare ID and
      those flags: each accessor looks at its own bit only. */
  lemma ComposeRoundTrip(h: bool, v: bool, d: bool, bare: u32)
    requires bare < 0x2000_0000
    ensures BareID(Compose(h, v, d, bare)) == bare
    ensures IsFlippedHorizontally(Compose(h, v, d, bare)) == h
    ensures IsFlippedVertically(Compose(h, v, d, bare)) == v
    ensures IsFlippedDiagonally(Compose(h, v, d, bare)) == d
  {
  }

  /** Every global ID is the composition of its own flags and bare ID. */
  lemma DecomposeRoundTrip(g: GlobalID)
    ensures Compose(IsFlippedHorizontally(g), IsFlippedVertically(g), IsFlippedDiagonally(g),
                    BareID(g)) == g
  {
  }
}

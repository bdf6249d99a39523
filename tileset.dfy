/** Tilesets (tiled/tileset.go): tiles and their terrain corners, the tile-rectangle arithmetic,
    the merge of an external tileset document, the lookups and the object-alignment parser. */
module Tilesets {
  import opened Wrappers
  import opened Errors
  import opened Text
  import opened GlobalIds
  import opened Images
  import opened Properties
  import opened ObjectLayers
  import opened Arithmetic
  import Lookup

  datatype ObjectAlignment =
    Unspecified | TopLeft | Top | TopRight | Left | Center | Right | BottomLeft | Bottom | BottomRight

  /** An animation frame. */
  datatype Frame = Frame(tileID: TileID, durationMsec: int)

  /** The tile IDs at the four corners of a tile's terrain (deprecated in the TMX format). */
  datatype TerrainType = TerrainType(topLeft: TileID, topRight: TileID, bottomLeft: TileID, bottomRight: TileID)

  datatype Terrain = Terrain(name: string, tileID: TileID, properties: Option<seq<Property>>)

  /** A tile of a tileset. `terrainType` is computed from `rawTerrainType` by DecodeTerrain. */
  datatype Tile = Tile(
    tileID: TileID,
    x: int,
    y: int,
    width: int,
    height: int,
    probability: real,
    tileType: string,
    rawTerrainType: string,
    properties: Option<seq<Property>>,
    image: Option<Image>,
    animation: Option<seq<Frame>>,
    objectLayer: Option<ObjectLayer>,
    terrainType: Option<TerrainType>)

  datatype TileOffset = TileOffset(x: int, y: int)

  datatype Transformations = Transformations(hFlip: bool, vFlip: bool, rotate: bool, preferUntransformed: bool)

  datatype WangColor = WangColor(name: string, className: string, color: string, tileID: TileID,
                                 properties: Option<seq<Property>>)
  datatype WangTile = WangTile(name: string, tileID: TileID, wangID: string)
  datatype WangSet = WangSet(name: string, className: string, tileID: TileID, properties: Option<seq<Property>>,
                             wangColors: Option<seq<WangColor>>, wangTiles: Option<seq<WangTile>>)

  datatype Tileset = Tileset(
    firstGlobalID: GlobalID,
    source: string,
    name: string,
    className: string,
    tileWidth: int,
    tileHeight: int,
    spacing: int,
    margin: int,
    tileCount: u32,
    columns: int,
    objectAlignment: ObjectAlignment,
    properties: Option<seq<Property>>,
    tileOffset: Option<TileOffset>,
    image: Option<Image>,
    terrainTypes: Option<seq<Terrain>>,
    wangSets: Option<seq<WangSet>>,
    tiles: Option<seq<Tile>>,
    transformations: Option<Transformations>)

  datatype Rect = Rect(min: Point, max: Point)

  /** The order `byFirstGlobalID` sorts by: ascending first global ID. */
  predicate SortedByFirstGlobalID(ts: seq<Tileset>)
  {
    forall i, j :: 0 <= i < j < |ts| ==> ts[i].firstGlobalID <= ts[j].firstGlobalID
  }

  /** `Tilesets.WithName`: the first tileset with the name, or nothing. */
  function TilesetsWithName(tl: seq<Tileset>, name: string): (r: Option<Tileset>)
    ensures r.None? <==> forall j :: 0 <= j < |tl| ==> tl[j].name != name
    ensures r.Some? ==> exists i :: 0 <= i < |tl| && tl[i] == r.value && r.value.name == name &&
                                    forall j :: 0 <= j < i ==> tl[j].name != name
  {
    Lookup.FirstMatch(tl, (t: Tileset) => t.name == name)
  }

  /** `Tiles.WithID`: the first tile with the ID, or nothing. */
  function TilesWithID(tl: seq<Tile>, id: TileID): (r: Option<Tile>)
    ensures r.None? <==> forall j :: 0 <= j < |tl| ==> tl[j].tileID != id
    ensures r.Some? ==> exists i :: 0 <= i < |tl| && tl[i] == r.value && r.value.tileID == id &&
                                    forall j :: 0 <= j < i ==> tl[j].tileID != id
  {
    Lookup.FirstMatch(tl, (t: Tile) => t.tileID == id)
  }

  // ---------------------------------------------------------------------------------------
  // Tile rectangles

  /** `Tileset.GetTileRect`: the rectangle a tile record declares, anchored at its position and
      spanning its size. */
  function GetTileRect(tile: Tile): (r: Rect)
    ensures r.min == Point(tile.x, tile.y)
    ensures r.max.x - r.min.x == tile.width && r.max.y - r.min.y == tile.height
  {
    Rect(Point(tile.x, tile.y), Point(tile.x + tile.width, tile.y + tile.height))
  }

  /** What GetTileRectFromID needs: an image to cut, positive tile sizes (the source divides by
      them) and non-negative image sizes (where its float floor agrees with integer division). */
  predicate CanCut(t: Tileset)
  {
    t.image.Some? && t.tileWidth > 0 && t.tileHeight > 0 && t.image.value.width >= 0 && t.image.value.height >= 0
  }

  function Columns(t: Tileset): nat
    requires CanCut(t)
  {
    t.image.value.width / t.tileWidth
  }

  function Rows(t: Tileset): nat
    requires CanCut(t)
  {
    t.image.value.height / t.tileHeight
  }

  /** The closed form of the tile rectangle: the image is cut into Columns x Rows tiles in
      row-major order and the tile at position `bareID - firstGlobalID` is taken, if there is one. */
  function TileRect(t: Tileset, bareID: u32): Option<Rect>
    requires CanCut(t)
  {
    var cols := Columns(t);
    var i := bareID - t.firstGlobalID;
    if 0 <= i < cols * Rows(t) then
      var x := (i % cols) * t.tileWidth;
      var y := (i / cols) * t.tileHeight;
      Some(Rect(Point(x, y), Point(x + t.tileWidth, y + t.tileHeight)))
    else None
  }

  /** `Tileset.GetTileRectFromID`: walk the tiles of the image in row-major order with a column
      and a row counter until the walk reaches the requested position. */
  method GetTileRectFromID(t: Tileset, bareID: u32) returns (r: Option<Rect>)
    requires CanCut(t)
    ensures r == TileRect(t, bareID)
  {
    var bID: int := bareID;
    var fGID: int := t.firstGlobalID;
    var w := t.tileWidth;
    var h := t.tileHeight;
    var iw := t.image.value.width;
    var ih := t.image.value.height;
    var count := (iw / w) * (ih / h);
    var tileHor := 0;
    var tileVert := 0;
    var i := 0;
    while i < count
      invariant 0 <= i <= count
      invariant 0 <= tileVert
      invariant count > 0 ==> 0 <= tileHor < iw / w && i == tileVert * (iw / w) + tileHor
      invariant !(0 <= bID - fGID < i)
    {
      if i == bID - fGID {
        DivModUnique(i, iw / w, tileVert, tileHor);
        var x := tileHor * w;
        var y := tileVert * h;
        return Some(Rect(Point(x, y), Point(x + w, y + h)));
      }
      tileHor := tileHor + 1;
      if tileHor == iw / w {
        tileHor := 0;
        tileVert := tileVert + 1;
      }
      i := i + 1;
    }
    return None;
  }

  /** Every rectangle TileRect yields lies inside the image, has the tile size, and sits on the
      tile grid. */
  lemma TileRectInImage(t: Tileset, bareID: u32)
    requires CanCut(t) && TileRect(t, bareID).Some?
    ensures var r := TileRect(t, bareID).value;
      0 <= r.min.x && r.max.x <= t.image.value.width &&
      0 <= r.min.y && r.max.y <= t.image.value.height &&
      r.max.x - r.min.x == t.tileWidth && r.max.y - r.min.y == t.tileHeight &&
      r.min.x % t.tileWidth == 0 && r.min.y % t.tileHeight == 0
  {
    var i := bareID - t.firstGlobalID;
    var cols := Columns(t);
    CellInside(i % cols, cols, t.tileWidth, t.image.value.width);
    assert i / cols < Rows(t);
    CellInside(i / cols, Rows(t), t.tileHeight, t.image.value.height);
  }

  /** Cell c of n cells of size w, where n = extent / w, starts on the grid and ends inside the
      extent. */
  lemma CellInside(c: int, n: int, w: int, extent: int)
    requires w > 0 && extent >= 0 && n == extent / w && 0 <= c < n
    ensures 0 <= c * w && c * w + w <= extent && (c * w) % w == 0
  {
    MulMono(c + 1, n, w);
    MulMono(0, c, w);
    DivModUnique(c * w, w, c, 0);
  }

  /** Different IDs within the image get different rectangles, and an ID outside it gets none. */
  lemma TileRectDistinct(t: Tileset, a: u32, b: u32)
    requires CanCut(t) && TileRect(t, a).Some? && TileRect(t, b).Some? && a != b
    ensures TileRect(t, a) != TileRect(t, b)
  {
    var cols := Columns(t);
    var i, j := a - t.firstGlobalID, b - t.firstGlobalID;
    if TileRect(t, a) == TileRect(t, b) {
      MulCancel(i % cols, j % cols, t.tileWidth);
      MulCancel(i / cols, j / cols, t.tileHeight);
      assert false;
    }
  }

  // ---------------------------------------------------------------------------------------
  // Terrain corners (Tile.UnmarshalXML)

  /** One corner: the part trimmed and parsed as a signed 32-bit decimal, then converted to a
      TileID with Go's wrap-around. */
  function ParseCorner(part: string): (r: Result<TileID>)
  {
    var v :- ParseInt(TrimSpace(part), 32);
    Ok(v % 0x1_0000_0000)
  }

  /** The corners of the parts, in order, stopping at the first part that fails. */
  function ParseCorners(parts: seq<string>): (r: Result<seq<TileID>>)
    ensures r.Ok? ==> |r.value| == |parts|
  {
    All(parts, ParseCorner)
  }

  /** The terrain of a `terrain` attribute: the empty text means all-zero corners; otherwise the
      text must hold exactly four comma-separated parts, taken as top-left, top-right,
      bottom-left and bottom-right. */
  function ParseTerrain(raw: string): (r: Result<TerrainType>)
    ensures raw == "" ==> r == Ok(TerrainType(0, 0, 0, 0))
    ensures raw != "" && Count(raw, ',') != 3 ==> r == Err(TerrainArity(raw, Count(raw, ',') + 1))
    ensures raw != "" && r.Ok? ==>
      Count(raw, ',') == 3 &&
      ParseCorners(Split(raw, ',')) ==
        Ok([r.value.topLeft, r.value.topRight, r.value.bottomLeft, r.value.bottomRight])
    ensures raw != "" && Count(raw, ',') == 3 ==>
      match ParseCorners(Split(raw, ','))
      case Err(e) => r == Err(e)
      case Ok(ids) => r == Ok(TerrainType(ids[0], ids[1], ids[2], ids[3]))
  {
    if raw == "" then Ok(TerrainType(0, 0, 0, 0))
    else
      var parts := Split(raw, ',');
      if |parts| != 4 then Err(TerrainArity(raw, |parts|))
      else
        var ids :- ParseCorners(parts);
        assert ids == [ids[0], ids[1], ids[2], ids[3]];
        Ok(TerrainType(ids[0], ids[1], ids[2], ids[3]))
  }

  /** The terrain step of `Tile.UnmarshalXML`: fill a four-slot ID array part by part, then set
      the tile's terrain type; on an error the tile keeps its decoded fields. */
  method DecodeTerrain(decoded: Tile) returns (t: Tile, err: Option<Error>)
    ensures ParseTerrain(decoded.rawTerrainType).Ok? ==>
      err.None? && t == decoded.(terrainType := Some(ParseTerrain(decoded.rawTerrainType).value))
    ensures ParseTerrain(decoded.rawTerrainType).Err? ==>
      t == decoded && err == Some(ParseTerrain(decoded.rawTerrainType).error)
  {
    t := decoded;
    err := None;
    if t.rawTerrainType == "" {
      t := t.(terrainType := Some(TerrainType(0, 0, 0, 0)));
      return;
    }
    var types := Split(t.rawTerrainType, ',');
    if |types| != 4 {
      err := Some(TerrainArity(t.rawTerrainType, |types|));
      return;
    }
    var ids := ParseCornersInto(types);
    if ids.Err? {
      err := Some(ids.error);
      return;
    }
    var tid := ids.value;
    t := t.(terrainType := Some(TerrainType(tid[0], tid[1], tid[2], tid[3])));
  }

  /** The loop of the terrain step: each part parsed into its slot of a fresh four-slot array,
      stopping at the first part that fails. */
  method ParseCornersInto(types: seq<string>) returns (r: Result<seq<TileID>>)
    requires |types| == 4
    ensures r == ParseCorners(types)
  {
    var tid := new TileID[4];
    var i := 0;
    while i < |types|
      invariant 0 <= i <= |types|
      invariant forall k :: 0 <= k < i ==> ParseCorner(types[k]) == Ok(tid[k])
    {
      var id := ParseCorner(types[i]);
      if id.Err? {
        AllFirstError(types, ParseCorner, i);
        return Err(id.error);
      }
      tid[i] := id.value;
      i := i + 1;
    }
    AllValues(types, ParseCorner, tid[..]);
    return Ok(tid[..]);
  }

  /** The terrain attribute as the TMX format writes it. */
  function FormatTerrain(a: int, b: int, c: int, d: int): string
  {
    Join([FormatInt(a), FormatInt(b), FormatInt(c), FormatInt(d)], ',')
  }

  /** Four signed 32-bit corners written in the TMX format parse back to the same corners, as
      unsigned tile IDs. */
  lemma TerrainRoundTrip(a: int, b: int, c: int, d: int)
    requires InInt32(a) && InInt32(b) && InInt32(c) && InInt32(d)
    ensures ParseTerrain(FormatTerrain(a, b, c, d)) ==
      Ok(TerrainType(a % 0x1_0000_0000, b % 0x1_0000_0000, c % 0x1_0000_0000, d % 0x1_0000_0000))
  {
    var parts := [FormatInt(a), FormatInt(b), FormatInt(c), FormatInt(d)];
    var ids: seq<TileID> := [a % 0x1_0000_0000, b % 0x1_0000_0000, c % 0x1_0000_0000, d % 0x1_0000_0000];
    forall k | 0 <= k < 4
      ensures ',' !in parts[k] && ParseCorner(parts[k]) == Ok(ids[k])
    {
      var n := [a, b, c, d][k];
      CornerRoundTrip(n);
    }
    TerrainOfParts(parts, ids);
  }

  /** Four comma-free parts that each parse as a corner, joined with commas, parse as the terrain
      of those corners. */
  lemma TerrainOfParts(parts: seq<string>, ids: seq<TileID>)
    requires |parts| == 4 && |ids| == 4 && parts[0] != ""
    requires forall k :: 0 <= k < 4 ==> ',' !in parts[k] && ParseCorner(parts[k]) == Ok(ids[k])
    ensures ParseTerrain(Join(parts, ',')) == Ok(TerrainType(ids[0], ids[1], ids[2], ids[3]))
  {
    SplitJoin(parts, ',');
    AllValues(parts, ParseCorner, ids);
    assert |Join(parts, ',')| >= |parts[0]| > 0;
  }

  lemma CornerRoundTrip(n: int)
    requires InInt32(n)
    ensures ',' !in FormatInt(n) && ParseCorner(FormatInt(n)) == Ok(n % 0x1_0000_0000)
  {
    FormatIntHasNo(n, ',');
    TrimInt(n);
    ParseIntFormatInt(n, 32);
  }

  // ---------------------------------------------------------------------------------------
  // External tilesets (Tileset.UnmarshalXML)

  /** The image of the first tile that has one, in tile order. */
  function FirstTileImage(tiles: seq<Tile>): (r: Option<Image>)
    ensures r.None? <==> forall j :: 0 <= j < |tiles| ==> tiles[j].image.None?
    ensures r.Some? ==> exists i :: 0 <= i < |tiles| && tiles[i].image == r &&
                                    forall j :: 0 <= j < i ==> tiles[j].image.None?
  {
    match Lookup.FirstMatch(tiles, (tile: Tile) => tile.image.Some?)
    case None => None
    case Some(tile) => tile.image
  }

  /** The merge policy after an external document was decoded over the referencing record:
      a nonzero first global ID of the referencing element wins; an image of the tileset is
      kept; otherwise the first tile image is adopted; with no tiles, or no tile image, the
      tileset is rejected (and returned as far as it was merged). */
  function MergeExternal(loaded: Tileset, firstGlobalID: GlobalID): (r: (Tileset, Option<Error>))
    ensures r.0.firstGlobalID == (if firstGlobalID != 0 then firstGlobalID else loaded.firstGlobalID)
    ensures r.0 == loaded.(firstGlobalID := r.0.firstGlobalID, image := r.0.image)
    ensures loaded.image.Some? ==> r == (r.0, None) && r.0.image == loaded.image
    ensures loaded.image.None? && loaded.tiles.None? ==> r.1 == Some(TilesetMissingImage) && r.0.image == None
    ensures loaded.image.None? && loaded.tiles.Some? ==>
      r.0.image == FirstTileImage(loaded.tiles.value) &&
      (r.1.None? <==> r.0.image.Some?) && (r.1.Some? ==> r.1 == Some(TilesetMissingImage))
  {
    var t := if firstGlobalID != 0 then loaded.(firstGlobalID := firstGlobalID) else loaded;
    if t.image.Some? then (t, None)
    else if t.tiles.None? then (t, Some(TilesetMissingImage))
    else match FirstTileImage(t.tiles.value)
      case None => (t, Some(TilesetMissingImage))
      case Some(image) => (t.(image := Some(image)), None)
  }

  /** `Tileset.UnmarshalXML` after the XML decoder has produced `decoded`. Without a source the
      tileset is returned as decoded. With one, the external document is opened relative to
      `baseDir` and decoded over a copy of `decoded` (both outside the model, `loadTileset`); an
      open or decode failure leaves the decoded tileset. Then the merge policy applies, with
      the first-tile-image search as a loop that stops at the first tile with an image. */
  method DecodeTileset(decoded: Tileset, baseDir: string, loadTileset: (string, string, Tileset) -> Load<Tileset>)
    returns (t: Tileset, err: Option<Error>)
    ensures decoded.source == "" ==> t == decoded && err.None?
    ensures decoded.source != "" ==>
      match loadTileset(baseDir, decoded.source, decoded)
      case OpenFailed(e) => t == decoded && err == Some(OpeningTileset(e))
      case DecodeFailed(e) => t == decoded && err == Some(DecodingTileset(e))
      case Loaded(ext) => (t, err) == MergeExternal(ext, decoded.firstGlobalID)
  {
    var firstGlobalID := decoded.firstGlobalID;
    t := decoded;
    err := None;
    if decoded.source == "" {
      return;
    }
    var loaded := loadTileset(baseDir, decoded.source, decoded);
    if loaded.OpenFailed? {
      err := Some(OpeningTileset(loaded.cause));
      return;
    }
    if loaded.DecodeFailed? {
      err := Some(DecodingTileset(loaded.cause));
      return;
    }
    t := loaded.value;
    if firstGlobalID != 0 {
      t := t.(firstGlobalID := firstGlobalID);
    }
    if t.image.Some? {
      return;
    }
    var image: Option<Image> := None;
    if t.tiles.None? {
      err := Some(TilesetMissingImage);
      return;
    }
    var tiles := t.tiles.value;
    var i := 0;
    while i < |tiles|
      invariant 0 <= i <= |tiles|
      invariant forall j :: 0 <= j < i ==> tiles[j].image.None?
    {
      if tiles[i].image.None? {
        i := i + 1;
        continue;
      }
      image := tiles[i].image;
      break;
    }
    FirstTileImageAt(tiles, i);
    if image.None? {
      err := Some(TilesetMissingImage);
      return;
    }
    t := t.(image := image);
  }

  lemma FirstTileImageAt(tiles: seq<Tile>, i: nat)
    requires i <= |tiles| && forall j :: 0 <= j < i ==> tiles[j].image.None?
    requires i < |tiles| ==> tiles[i].image.Some?
    ensures FirstTileImage(tiles) == (if i < |tiles| then tiles[i].image else None)
  {
    if i < |tiles| {
      var r := FirstTileImage(tiles);
      if r.None? {
        assert tiles[i].image.None?;
      } else {
        var k :| 0 <= k < |tiles| && tiles[k].image == r && forall j :: 0 <= j < k ==> tiles[j].image.None?;
        assert !(k < i) && !(i < k);
      }
    }
  }

  // ---------------------------------------------------------------------------------------
  // ObjectAlignment.UnmarshalText

  function ObjectAlignmentName(a: ObjectAlignment): string
  {
    match a
    case Unspecified => "unspecified"
    case TopLeft => "topleft"
    case Top => "top"
    case TopRight => "topright"
    case Left => "left"
    case Center => "center"
    case Right => "right"
    case BottomLeft => "bottomleft"
    case Bottom => "bottom"
    case BottomRight => "bottomright"
  }

  /** `ObjectAlignment.UnmarshalText`: one of the ten names, in any letter case; anything else,
      the empty text included, is rejected with the lower-cased text. */
  function ParseObjectAlignment(text: string): (r: Result<ObjectAlignment>)
    ensures r.Ok? <==> ToLower(text) in {"unspecified", "topleft", "top", "topright", "left", "center",
                                         "right", "bottomleft", "bottom", "bottomright"}
    ensures r.Ok? ==> ObjectAlignmentName(r.value) == ToLower(text)
    ensures r.Err? ==> r.error == UnknownObjectAlignment(ToLower(text))
  {
    var s := ToLower(text);
    if s == "unspecified" then Ok(Unspecified)
    else if s == "topleft" then Ok(TopLeft)
    else if s == "top" then Ok(Top)
    else if s == "topright" then Ok(TopRight)
    else if s == "left" then Ok(Left)
    else if s == "center" then Ok(Center)
    else if s == "right" then Ok(Right)
    else if s == "bottomleft" then Ok(BottomLeft)
    else if s == "bottom" then Ok(Bottom)
    else if s == "bottomright" then Ok(BottomRight)
    else Err(UnknownObjectAlignment(s))
  }

  /** Every alignment's name parses back to that alignment in any letter case, and parsing
      ignores case. */
  lemma ObjectAlignmentNames(a: ObjectAlignment, text: string)
    ensures ToLower(text) == ObjectAlignmentName(a) ==> ParseObjectAlignment(text) == Ok(a)
    ensures ParseObjectAlignment(text) == ParseObjectAlignment(ToLower(text))
  {
    ToLowerIdempotent(text);
  }
}

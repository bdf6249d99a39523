# go-tiled loader core, modelled in Dafny

This project models the part of the go-tiled TMX map loader that runs after XML attribute
decoding, and proves properties of that model. It covers:

- the decoding of a tile layer's `<data>` payload into 32-bit global IDs (CSV text, or a
  base64 byte stream read as little-endian words);
- the bit layout of a global ID (three flip flags over a 29-bit bare ID) and the
  tileset-local tile ID;
- the resolution of every global ID reference of a tile layer into a tile definition, against
  the tilesets sorted by first global ID;
- the walk that resolves the top-level tile layers and then those of the group tree, in order,
  stopping at the first error;
- bounds-checked cell access on a tile layer;
- the tile-rectangle arithmetic of a tileset image and the terrain-corner parser;
- the merge policy for external tilesets and the template handling of objects;
- the polygon point-string parser, the typed property getters, the case-insensitive
  enumeration parsers, and the first-match `WithName`/`WithID` lookups.

Global IDs and tile IDs are integers in [0, 2^32). The bit masks of the source are written as
the equivalent divisions and remainders by powers of two, and the tile ID subtraction wraps
modulo 2^32 as Go's `uint32` does.

A tile layer is a class: its reference list and its cell list are fields the resolution
updates in place. The map's tileset list is an array sorted in place. Tilesets, tiles,
objects, properties and groups are values.

The loader resolves layers in order and stops at the first failing layer. That order is one
generic function, `InOrder`, over the two lists of each layer. The methods that walk a layer
list, a group list or the whole map state their effect as `InOrder` applied to the lists the
layers held before, in the order `Groups.Layers` gives: for each group, its own layers, then
those of its nested groups.

The XML decoder, the file system and the base64 and decompression libraries are parameters:
`Codecs` for the payload decoders, and loader functions returning a `Load` outcome for
external tilesets and templates.

## Model

| member | source | states |
|---|---|---|
| GlobalIds.BareID | tiled/tilelayer.go:129-131 | the bare ID is below 2^29 and differs from the global ID by a multiple of 2^29, so it is the low 29 bits |
| GlobalIds.TileIDOf | tiled/tilelayer.go:124-126 | the local ID plus the first global ID is the bare ID modulo 2^32; it is the plain difference when the first global ID is not above the bare ID, and wraps by 2^32 otherwise |
| GlobalIds.ComposeRoundTrip | tiled/tilelayer.go:108-139 | any combination of the three flag bits over a bare ID below 2^29 reads back as that bare ID and those flags: each flip test looks at its own bit only |
| GlobalIds.DecomposeRoundTrip | tiled/tilelayer.go:108-139 | every global ID is exactly its three flags over its bare ID |
| Text.ParseUint | tiled/tilelayer.go:211 | `strconv.ParseUint(s, 10, bits)` succeeds exactly on a non-empty digit string whose value is below 2^bits, yielding that value; otherwise a syntax or range error |
| Text.ParseInt | tiled/objectlayer.go:154-161 | `strconv.ParseInt(s, 10, bits)`: an optional sign, then digits, accepted exactly when the signed value is in range; an all-digit magnitude out of range is a range error, and a text of at most 19 digits holding a non-digit (or no digit) is a syntax error whatever `bits` is, since the magnitude is read at 64 bits |
| Text.ParseUintFormatDecimal | tiled/tilelayer.go:211 | ParseUint reads back the decimal text of every value below 2^bits |
| Text.ParseIntFormatInt | tiled/property.go:53 | ParseInt reads back the decimal text of every value in the signed range |
| Text.ParseIntSyntaxBeforeRange | tiled/objectlayer.go:154 | "5000000000x" at 32 bits is a syntax error, not a range error |
| Text.SplitJoin | tiled/tilelayer.go:210 | splitting the join of separator-free pieces gives the pieces back |
| Text.JoinSplit | tiled/tilelayer.go:210 | joining the pieces of a split gives the text back |
| Text.ToLowerIdempotent | tiled/image.go:30-31 | lower-casing twice is lower-casing once, so the parsers' second `ToLower` changes nothing |
| LayerData.LERoundTrip | tiled/tilelayer.go:196-208 | a little-endian word read and a 4-byte group are inverse bijections |
| LayerData.ReadWords | tiled/tilelayer.go:196-208 | the read loop yields one word per full 4-byte group, and an unexpected-EOF error exactly when 1 to 3 bytes trail |
| LayerData.ReadWordsAt | tiled/tilelayer.go:196-208 | word k is the little-endian value of bytes 4k to 4k+3 |
| LayerData.ReadEncodedWords | tiled/tilelayer.go:196-208 | the byte stream of any word sequence reads back as exactly those words, without error |
| LayerData.ParseRefs | tiled/tilelayer.go:210-218 | the IDs of the tokens before the first bad one, each the token's parse, and that token's error |
| LayerData.ParseCsv | tiled/tilelayer.go:209-219 | on success there is one reference per token, so commas + 1 of them |
| LayerData.CsvRejectsEmptyTokens | tiled/tilelayer.go:209-214 | the empty text and any text with a trailing comma fail on their empty token |
| LayerData.CsvRoundTrip | tiled/tilelayer.go:209-219 | every non-empty ID list written as CSV parses back to that list |
| LayerData.Inflate | tiled/tilelayer.go:161-188 | the stream the words are read from: the base64 stream itself, or the zlib or gzip reader over it, whose construction error fails the payload before any word; zstd either fails or yields a stream that ends cleanly, being read to the end first |
| LayerData.ReadStream | tiled/tilelayer.go:196-208 | the `binary.Read` loop keeps one word per full 4-byte group delivered, then passes on the stream's error if it stopped with one, and otherwise ends cleanly or with io.ErrUnexpectedEOF for 1 to 3 trailing bytes |
| LayerData.DecodePayload | tiled/tilelayer.go:158-227 | encoding "" gives nothing; an unknown encoding, or base64 with an unknown compression, fails with the tag; csv is ParseCsv; base64 fails with no references when a reader cannot be built or zstd cannot be read to the end, and otherwise reads the words the decoded stream delivers, ending with the stream's own error if it stops with one |
| LayerData.Base64WordCount | tiled/tilelayer.go:161-208 | a base64 stream delivering n bytes yields n / 4 references, the k-th being bytes 4k to 4k+3 read little-endian, even when the stream then stops with an error; there is no error exactly when the stream ends cleanly and n is a multiple of 4; a stream error is reported as is |
| TileLayers.TileLayer.DecodeLayerData | tiled/tilelayer.go:158-227 | the layer's references grow by DecodePayload's references, its error is DecodePayload's, and the cells are untouched |
| TileLayers.TileLayer.AppendWords | tiled/tilelayer.go:196-208 | the read loop appends the full words the stream delivers, then reports the stream's error, or io.ErrUnexpectedEOF for a partial word before a clean end |
| TileLayers.TileLayer.AppendCsv | tiled/tilelayer.go:209-219 | the CSV loop appends ParseCsv's references and reports its error |
| TileLayers.TileLayer.GetTileDefAtIndex | tiled/tilelayer.go:68-73 | fails with the index exactly when the index is negative or at least width × height; otherwise returns the cell at the index |
| TileLayers.TileLayer.GetTileDefAtPosition | tiled/tilelayer.go:59-66 | fails exactly when the flat index row × width + col fails, with the row and column; otherwise is the cell at that flat index |
| TileLayers.PositionInGrid | tiled/tilelayer.go:59-73 | on a full grid every in-grid position reads the cell at row × width + col |
| TileLayers.PositionWrapsToNextRow | tiled/tilelayer.go:59-73 | column `width` of a row that is not the last succeeds and reads the first cell of the next row |
| TileLayers.GridCorners | tiled/tilelayer.go:59-73 | the last cell of a non-empty grid is in bounds and the position (height, width) is not |
| TileLayers.TileLayersWithName | tiled/tilelayer.go:22-30 | the first layer with the name, or nothing exactly when none has it |
| Images.ParseImageFormat | tiled/image.go:29-44 | succeeds exactly on the four names in any letter case, naming the format; otherwise fails with the lower-cased text |
| Images.ParseImageFormatIgnoresCase | tiled/image.go:30-31 | parsing a text and its lower case agree |
| Images.ParseImageFormatName | tiled/image.go:34-42 | every format's name parses back to it in any letter case |
| Images.ParseImageFormatRejects | tiled/image.go:32-33 | "jpeg" and "" are unknown formats |
| Properties.WithName | tiled/property.go:13-20 | the first property with the name, or nothing exactly when none has it |
| Properties.GetInt | tiled/property.go:48-58 | a non-int property is a type error whatever its value; an int property is its signed 64-bit decimal value, or a conversion error wrapping the parse error |
| Properties.GetIntFormatInt | tiled/property.go:48-58 | an int property holding the decimal text of a 64-bit value reads back that value |
| Properties.GetBool | tiled/property.go:61-67 | succeeds exactly on a bool property, and is true exactly on the text "true" |
| Properties.ParsePropertyType | tiled/property.go:82-105 | succeeds exactly on the eight names in any letter case, naming the type; otherwise fails with the lower-cased text |
| Properties.ParsePropertyTypeIgnoresCase | tiled/property.go:82-86 | parsing a text and its lower case agree |
| Properties.ParsePropertyTypeName | tiled/property.go:87-104 | every type's name parses back to it in any letter case |
| ObjectLayers.LayersWithName | tiled/objectlayer.go:17-24 | the first object layer with the name, or nothing exactly when none has it |
| ObjectLayers.ObjectsWithName | tiled/objectlayer.go:52-60 | the first object with the name, or nothing exactly when none has it |
| ObjectLayers.ShapeTestsIndependent | tiled/objectlayer.go:89-111 | every combination of answers of the five shape tests is some object's |
| ObjectLayers.ParsePoint | tiled/objectlayer.go:144-163 | a token without exactly one comma is an arity error with the part count; a token with one comma is the point of its two untrimmed parts parsed as signed 32-bit decimals when both parse, and otherwise the error of x, or of y when only y fails |
| ObjectLayers.ParsePoints | tiled/objectlayer.go:141-165 | the points of the tokens before the first bad one, each the token's parse, and that token's error |
| ObjectLayers.Points | tiled/objectlayer.go:140-166 | the loop returns ParsePoints of the raw text split on single spaces |
| ObjectLayers.PointsCount | tiled/objectlayer.go:141 | on success there is one point per token, so spaces + 1 points |
| ObjectLayers.EmptyPointsFail | tiled/objectlayer.go:141-152 | an empty point string fails: its one token has one part |
| ObjectLayers.ParsePointFormatPoint | tiled/objectlayer.go:144-163 | a 32-bit point written as "x,y" parses back to itself |
| ObjectLayers.PointsRoundTrip | tiled/objectlayer.go:140-166 | every non-empty list of 32-bit points written in the point format parses back to the list |
| ObjectLayers.AdoptUnsetAsWritten | tiled/objectlayer.go:241-288 | the guarded copy as written: every unset field takes the other object's value, and the polyline is copied exactly when the polygon, after its own copy, is still unset |
| ObjectLayers.MergeTemplate | tiled/objectlayer.go:241-288 | the intended merge: each unset field takes the template's value, set fields and the ID and template reference stay |
| ObjectLayers.MergeTemplateLaws | tiled/objectlayer.go:241-288 | a blank template changes nothing, a blank object adopts the whole template but its ID and reference, and merging twice is merging once |
| ObjectLayers.AdoptUnsetAsWrittenPolyline | tiled/objectlayer.go:274-279 | with a copy source other than the object itself, the copy as written agrees with the intended merge on every field but the polyline; with no polygon on either side the source's polyline replaces the object's, even one it has; a polygon on either side blocks the copy, so an object without a polyline adopts none |
| ObjectLayers.DecodeObject | tiled/objectlayer.go:210-291 | no template: the object as decoded, no error; a template that fails to open or decode: that error; a loaded template: the object exactly as decoded, since the copy reads the object itself |
| ObjectLayers.DecodeObjectIntended | tiled/objectlayer.go:210-291 | as DecodeObject, but a loaded template's object is merged with MergeTemplate |
| ObjectLayers.TemplateIgnored | tiled/objectlayer.go:236-288 | an unnamed object whose template names it "Default" stays unnamed as written but is named "Default" by the intended decode; an object named "Custom" keeps its name |
| ObjectLayers.ParseDrawOrder | tiled/objectlayer.go:293-306 | "" and "topdown" are top-down, "index" is index, in any letter case; anything else fails with the lower-cased text |
| ObjectLayers.ParseHAlignment | tiled/objectlayer.go:308-325 | "" is left; otherwise exactly the four names in any letter case; anything else fails |
| ObjectLayers.ParseVAlignment | tiled/objectlayer.go:327-342 | "" is top; otherwise exactly the three names in any letter case; anything else fails |
| ObjectLayers.AlignmentNames | tiled/objectlayer.go:308-342 | every alignment's name parses back to it in any letter case, and "" gives left and top |
| Tilesets.TilesetsWithName | tiled/tileset.go:24-31 | the first tileset with the name, or nothing exactly when none has it |
| Tilesets.TilesWithID | tiled/tileset.go:104-111 | the first tile with the ID, or nothing exactly when none has it |
| Tilesets.GetTileRect | tiled/tileset.go:64-69 | the rectangle starts at the tile's position and spans its width and height |
| Tilesets.GetTileRectFromID | tiled/tileset.go:71-99 | the column and row counting loop yields exactly the closed-form rectangle of TileRect: for an index i = bare ID − first global ID inside the columns × rows cut, the cell at column i mod columns and row i div columns; nothing otherwise |
| Tilesets.TileRectInImage | tiled/tileset.go:71-99 | every rectangle found lies inside the image, has the tile size and sits on the tile grid |
| Tilesets.TileRectDistinct | tiled/tileset.go:71-99 | different IDs inside the image get different rectangles |
| Tilesets.ParseCorners | tiled/tileset.go:338-345 | on success one corner per part |
| Tilesets.ParseTerrain | tiled/tileset.go:323-352 | "" gives all-zero corners; a text without exactly four comma-separated parts is an arity error with the part count; otherwise the four trimmed signed 32-bit parts, in order, when all parse, or the error of the first part that does not |
| Tilesets.ParseCornersInto | tiled/tileset.go:338-345 | the loop filling the four-slot array yields ParseCorners of the parts |
| Tilesets.DecodeTerrain | tiled/tileset.go:313-355 | the tile gets ParseTerrain's corners on success, and ParseTerrain's error otherwise |
| Tilesets.TerrainRoundTrip | tiled/tileset.go:328-352 | four signed 32-bit corners written as "a,b,c,d" parse back to those corners |
| Tilesets.TerrainOfParts | tiled/tileset.go:328-352 | four comma-free parts that parse as corners, joined with commas, parse as that terrain |
| Tilesets.CornerRoundTrip | tiled/tileset.go:340-344 | a corner's decimal text parses back to the corner modulo 2^32 |
| Tilesets.FirstTileImage | tiled/tileset.go:295-302 | the image of the first tile that has one, or nothing exactly when none has one |
| Tilesets.FirstTileImageAt | tiled/tileset.go:295-302 | if tiles before i have no image and tile i has one, the first image is tile i's |
| Tilesets.MergeExternal | tiled/tileset.go:280-308 | a nonzero referencing first global ID overrides the document's; an existing image is kept; otherwise the first tile image is adopted; no tiles or no tile image is a missing-image error; nothing else changes |
| Tilesets.DecodeTileset | tiled/tileset.go:249-311 | no source: the tileset as decoded; an open or decode failure: that error; otherwise MergeExternal of the loaded document |
| Tilesets.ParseObjectAlignment | tiled/tileset.go:357-384 | succeeds exactly on the ten names in any letter case, naming the alignment; otherwise fails with the lower-cased text |
| Tilesets.ObjectAlignmentNames | tiled/tileset.go:357-384 | every alignment's name parses back to it, and parsing ignores letter case |
| Groups.GroupsWithName | tiled/group.go:6-13 | the first group of the list with the name, or nothing exactly when none has it |
| Groups.GroupsWithNameIsShallow | tiled/group.go:6-13 | nested groups are not searched |
| Groups.LayersUpToPrefix | tiled/map.go:87-99 | the layers of the first i groups come first among the layers of the first j ≥ i groups |
| Groups.GroupSplit | tiled/map.go:87-99 | the layers of a group list are those of the groups before group i, then group i's own and nested ones, then the rest |
| Maps.ParseOrientation | tiled/map.go:149-164 | succeeds exactly on the four names in any letter case, naming the orientation; otherwise fails with the lower-cased text |
| Maps.OrientationNames | tiled/map.go:152-163 | every orientation's name parses back to it in any letter case |
| Maps.ParseRenderOrder | tiled/map.go:166-181 | succeeds exactly on the four names in any letter case, naming the order; otherwise fails with the lower-cased text |
| Maps.RenderOrderNames | tiled/map.go:169-180 | every render order's name parses back to it in any letter case |
| Maps.Owner | tiled/map.go:114-122 | there is no owner exactly when the list is empty or starts above the bare ID; otherwise every tileset up to the owner starts at or below the bare ID and the next one above it |
| Maps.OwnerIsGreatestBelow | tiled/map.go:114-122 | on a sorted list the owner has the greatest first global ID not above the bare ID |
| Maps.OwnerExample | tiled/map.go:114-122 | with first global IDs 1, 10, 50: 9 → first, 49 → second, 50 → third, 0 → none |
| Maps.TileOf | tiled/map.go:130-133 | the tile record is looked up only when the tileset lists tiles, and a missing record is nothing, not an error |
| Maps.DefOf | tiled/map.go:129-142 | a resolved cell is not nil, carries the global ID, the tileset and the three flags, its local ID plus the first global ID is the bare ID, and its tile is TileOf |
| Maps.ResolveRef | tiled/map.go:106-142 | bare ID 0 is the nil cell; otherwise it fails with the global ID exactly when there is no owner, and is DefOf in the owner |
| Maps.EmptyCellIgnoresFlags | tiled/map.go:107-112 | bare ID 0 under every combination of flags is the nil cell |
| Maps.ResolvedCellInTileset | tiled/map.go:114-142 | a resolved cell's local ID lies in its tileset's range, and on sorted tilesets below the next tileset's first global ID |
| Maps.ResolvedCells | tiled/map.go:106-146 | up to the first failure one cell per reference in reference order, each that reference's resolution, nil exactly where the bare ID is 0; a failure is the error of the reference after the last cell |
| Maps.ScanTilesets | tiled/map.go:114-122 | the scan keeps the owner found by Owner, and nothing when there is none |
| Maps.ResolveCell | tiled/map.go:107-142 | the loop body yields ResolveRef |
| Maps.DecodeTileDefs | tiled/map.go:105-147 | the layer's cells grow by ResolveRefs' cells; the references are released only on success; the error is the first failing reference's |
| Maps.InOrderSpec | tiled/map.go:67-99 | resolving in order steps every layer up to and including the first failing one, leaves the later ones as they were, and reports the failing one's error |
| Maps.InOrderAppend | tiled/map.go:67-77 | resolving a + b is resolving a, then b only if a succeeded |
| Maps.InOrderAllOk | tiled/map.go:67-77 | results that all succeed are exactly what resolving in order gives |
| Maps.InOrderFails | tiled/map.go:67-77 | results that succeed up to a failure at i are exactly what resolving in order gives |
| Maps.ResolveInOrderSpec | tiled/map.go:67-99 | layers before the first failing one are fully resolved with their references released; the failing one gets its cells before the bad reference and keeps its references; later ones are untouched |
| Maps.DecodeLayerList | tiled/map.go:67-73 | the layers of a list end as resolving their lists in order gives, with that error |
| Maps.DecodeLayerAt | tiled/map.go:68-72 | layer i ends with its lists resolved and every other layer keeps its lists |
| Maps.DecodeTree | tiled/map.go:67-77 | a layer list and then a group list end as resolving their layers in order gives: the list first, then the groups' layers |
| Maps.DecodeGroupTileDefs | tiled/map.go:82-102 | the layers of the group tree, in visiting order, end as resolving them in order gives, with that error; an empty list is a no-op |
| Maps.DecodeGroupAt | tiled/map.go:88-98 | the layers of group i are resolved in order and the layers of the other groups keep their lists |
| Maps.WalkStep | tiled/map.go:87-99 | one more group keeps the walk's invariant, or the first error there is the outcome of the whole walk |
| Maps.SortByFirstGlobalID | tiled/map.go:65 | the tileset array ends sorted by first global ID and holds the same tilesets |
| Maps.InsertLast | tiled/tileset.go:14-18 | one insertion step extends the sorted prefix by one, keeps the same tilesets, and leaves everything after the new element in place |
| Maps.Map.Finish | tiled/map.go:55-80 | the tilesets end sorted and permuted; every tile layer, top-level first and then the group tree's, ends as resolving them in order against the sorted tilesets gives, with that error |

## Left out

- XML decoding (`DecodeElement`), file opening and the resource path join are outside the model: decoded records are inputs, and external tilesets and templates come from a loader parameter returning a `Load` outcome.
- Base64 and the zlib, gzip and zstd decompressors are library code, passed in as `Codecs`: each gives the bytes its reader delivers and the error it stops with, so which bytes a corrupt input or a bad checksum lets through is theirs to say. Errors from closing readers and files are only printed by the source and are not modelled.
- Floating point: layer offsets, opacity and parallax are not modelled; `Property.Float` (tiled/property.go:35-45) is not modelled; object coordinates are `real` and only compared with zero and copied.
- Image layers, wang sets, animations and other records that the core only carries are not modelled.
- Properties.GetInt: on a range error Go also returns the clamped bound (±2^63 limit) beside the error; the `Result` keeps only the error, and no caller in the core reads that value.
- Text.ToLower: maps 'A'–'Z' and the two non-ASCII letters whose lower case is ASCII; other non-ASCII letters are kept, so an error's lower-cased text can differ from Go's for them, while every accept or reject decision is exact.
- TileLayers.TileLayer.DecodeLayerData: requires the layer to have a `<data>` element; the source dereferences a nil `RawData` and panics.
- TileLayers.TileLayer.GetTileDefAtIndex: requires an in-bounds index to have a cell; the source panics when the cell list is shorter than width × height. The product width × height is unbounded here, while the source computes it in Go's `int`.
- TileLayers.TileLayer.GetTileDefAtPosition: has the same requirement and the same unbounded arithmetic for row × width + col.
- Tilesets.GetTileRectFromID: requires an image, positive tile sizes and non-negative image sizes. The source panics on a nil image and divides by zero on a zero tile size; negative sizes are excluded as malformed input, although the source still counts tiles for them. The float64 floors of the source are modelled as integer division, which agrees for image sizes below 2^53; above that the float conversion rounds, and past 2^63 the conversion of the product back to `int` is implementation-defined, neither of which is modelled.
- Maps.Map.Finish: the tileset list is always present, since the source dereferences it unconditionally. The layers must be pairwise distinct objects, which holds for layers fresh from the XML decoder.
- A resolved cell holds its tileset as a value, not a pointer, so sharing one tileset record between cells is not modelled.
- Groups carry their nested groups as a sequence; a missing and an empty nested list are the same, as the walk treats both as nothing to visit.

## Findings

| source | as written | input that shows it | evidently intended | confidence | as-written member | corrected member |
|---|---|---|---|---|---|---|
| tiled/objectlayer.go:218-288 | every guarded copy reads from `tmp`, the object's own decoded copy, so the loaded template is never read and the object ends as decoded | an object without a name whose template declares the name "Default" | unset fields adopt the template's values and set fields stay, so the object is named "Default" | not executed | ObjectLayers.DecodeObject | ObjectLayers.DecodeObjectIntended |
| tiled/objectlayer.go:277 | the polyline copy is guarded by `o.Polygon == nil`, tested after line 275 may have copied the polygon, instead of `o.Polyline == nil`; as written the defect is latent, since the copy reads the object itself (row above) | once the copy reads the template: an object with neither shape, whose template has both, gets the polygon and no polyline; an object with only a polyline, whose template has no polygon, has its polyline replaced by the template's | the polyline is adopted exactly when the object has none | not executed | ObjectLayers.AdoptUnsetAsWrittenPolyline | ObjectLayers.MergeTemplate |

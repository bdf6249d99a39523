/** Tile layers (tiled/tilelayer.go): the layer record whose reference and definition lists the
    loader fills in place, the decoding of its <data> payload into global ID references, and
    bounds-checked access to the resolved cells. */
module TileLayers {
  import opened Wrappers
  import opened Errors
  import opened Text
  import opened GlobalIds
  import opened Properties
  import opened Tilesets
  import opened LayerData
  import opened Arithmetic
  import Lookup

  /** One resolved cell: either the empty cell (`nil`) or a tile of a tileset, with its local ID,
      the global ID it came from and the three orientation flags. The tileset and its tile
      record are carried as values. */
  datatype TileDef = TileDef(
    nil: bool,
    id: TileID,
    globalID: GlobalID,
    tileset: Option<Tileset>,
    tile: Option<Tile>,
    horizontallyFlipped: bool,
    verticallyFlipped: bool,
    diagonallyFlipped: bool)

  /** `&TileDef{Nil: true}`: the empty cell, every other field zero. */
  const NilTileDef := TileDef(true, 0, 0, None, None, false, false, false)

  /** A <layer> element. Its attributes are fixed once decoded; the global ID references and
      the resolved cells are the lists the loader appends to. */
  class TileLayer {
    const id: string
    const name: string
    const className: string
    const width: int
    const height: int
    const visible: bool
    const offsetX: int
    const offsetY: int
    const properties: Option<seq<Property>>
    const rawData: Option<Data>
    var tileGlobalRefs: seq<GlobalID>
    var tileDefs: seq<TileDef>

    /** The layer as the XML decoder leaves it: attributes set, nothing decoded yet. */
    constructor (id: string, name: string, className: string, width: int, height: int,
                 visible: bool, offsetX: int, offsetY: int,
                 properties: Option<seq<Property>>, rawData: Option<Data>)
      ensures this.id == id && this.name == name && this.className == className
      ensures this.width == width && this.height == height && this.visible == visible
      ensures this.offsetX == offsetX && this.offsetY == offsetY
      ensures this.properties == properties && this.rawData == rawData
      ensures tileGlobalRefs == [] && tileDefs == []
    {
      this.id := id;
      this.name := name;
      this.className := className;
      this.width := width;
      this.height := height;
      this.visible := visible;
      this.offsetX := offsetX;
      this.offsetY := offsetY;
      this.properties := properties;
      this.rawData := rawData;
      tileGlobalRefs := [];
      tileDefs := [];
    }

    /** `decodeLayerData`: append the references of the <data> payload to the layer, after
        dispatching on the encoding and, for base64, on the compression. A failure returns at
        once, keeping what was appended before it. */
    method DecodeLayerData(codecs: Codecs) returns (err: Option<Error>)
      requires rawData.Some?
      modifies this
      ensures tileGlobalRefs == old(tileGlobalRefs) + DecodePayload(rawData.value, codecs).0
      ensures err == DecodePayload(rawData.value, codecs).1
      ensures tileDefs == old(tileDefs)
    {
      var d := rawData.value;
      if d.encoding == "base64" {
        if !KnownCompression(d.compression) {
          return Some(UnsupportedCompression(d.compression));
        }
        var inflated := Inflate(d, codecs);
        if inflated.Err? {
          return Some(inflated.error);
        }
        err := AppendWords(inflated.value);
      } else if d.encoding == "csv" {
        err := AppendCsv(d.rawBytes);
      } else if d.encoding == "" {
        return None;
      } else {
        return Some(UnsupportedEncoding(d.encoding));
      }
    }

    /** The base64 read loop: one little-endian word at a time from the stream; a clean end
        after whole words stops it without error, a partial word before a clean end is
        io.ErrUnexpectedEOF, and a stream that stops with an error passes that error on after
        the full words it delivered. */
    method AppendWords(s: Stream) returns (err: Option<Error>)
      modifies this
      ensures tileGlobalRefs == old(tileGlobalRefs) + ReadStream(s).0
      ensures err == ReadStream(s).1
      ensures tileDefs == old(tileDefs)
    {
      var b := s.bytes;
      var pos := 0;
      while pos < |b|
        invariant 0 <= pos <= |b| && pos % 4 == 0
        invariant tileGlobalRefs == old(tileGlobalRefs) + ReadWords(b).0[..pos / 4]
        invariant tileDefs == old(tileDefs)
        decreases |b| - pos
      {
        if |b| - pos < 4 {
          assert ReadWords(b).0[..pos / 4] == ReadWords(b).0;
          if s.end.Some? {
            return s.end;
          }
          return Some(UnexpectedEOF);
        }
        ReadWordsAt(b, pos / 4);
        assert ReadWords(b).0[..pos / 4 + 1] == ReadWords(b).0[..pos / 4] + [LE(b[pos..pos + 4])];
        tileGlobalRefs := tileGlobalRefs + [LE(b[pos..pos + 4])];
        pos := pos + 4;
      }
      assert ReadWords(b).0[..pos / 4] == ReadWords(b).0;
      return s.end;
    }

    /** The CSV loop: each comma-separated token trimmed and parsed as an unsigned 32-bit
        decimal; the first bad token's error is returned. */
    method AppendCsv(text: string) returns (err: Option<Error>)
      modifies this
      ensures tileGlobalRefs == old(tileGlobalRefs) + ParseCsv(text).0
      ensures err == ParseCsv(text).1
      ensures tileDefs == old(tileDefs)
    {
      var tokens := Split(text, ',');
      ghost var appended: seq<GlobalID> := [];
      var i := 0;
      while i < |tokens|
        invariant 0 <= i <= |tokens| && |appended| == i
        invariant forall k :: 0 <= k < i ==> ParseRef(tokens[k]) == Ok(appended[k])
        invariant tileGlobalRefs == old(tileGlobalRefs) + appended
        invariant tileDefs == old(tileDefs)
      {
        var next := ParseRef(tokens[i]);
        if next.Err? {
          CollectOf(tokens, ParseRef, appended, Some(next.error));
          return Some(next.error);
        }
        tileGlobalRefs := tileGlobalRefs + [next.value];
        appended := appended + [next.value];
        i := i + 1;
      }
      CollectOf(tokens, ParseRef, appended, None);
      return None;
    }

    /** `GetTileDefAtIndex`: the cell at a flat index, or an out-of-bounds error for an index
        outside [0, width * height). */
    function GetTileDefAtIndex(index: int): (r: Result<TileDef>)
      reads this
      requires 0 <= index < width * height ==> index < |tileDefs|
      ensures r.Err? <==> index < 0 || index >= width * height
      ensures r.Err? ==> r.error == TileDefOutOfBoundsIndex(index)
      ensures r.Ok? ==> r.value == tileDefs[index]
    {
      if index < 0 || index >= width * height then Err(TileDefOutOfBoundsIndex(index))
      else Ok(tileDefs[index])
    }

    /** `GetTileDefAtPosition`: the cell at flat index row * width + col. Only the flat index is
        checked, and a failure is reported with the row and column instead of the index. */
    function GetTileDefAtPosition(row: int, col: int): (r: Result<TileDef>)
      reads this
      requires 0 <= row * width + col < width * height ==> row * width + col < |tileDefs|
      ensures r.Err? <==> GetTileDefAtIndex(row * width + col).Err?
      ensures r.Err? ==> r.error == TileDefOutOfBoundsPosition(row, col)
      ensures r.Ok? ==> r == GetTileDefAtIndex(row * width + col)
    {
      match GetTileDefAtIndex(row * width + col)
      case Err(_) => Err(TileDefOutOfBoundsPosition(row, col))
      case Ok(td) => Ok(td)
    }
  }

  /** Every cell of a resolved layer: one definition per position of the width by height grid. */
  predicate FullGrid(l: TileLayer)
    reads l
  {
    0 <= l.width && 0 <= l.height && |l.tileDefs| == l.width * l.height
  }

  /** Every position inside the grid reads the cell at row * width + col. */
  lemma PositionInGrid(l: TileLayer, row: int, col: int)
    requires FullGrid(l)
    requires 0 <= row < l.height && 0 <= col < l.width
    ensures 0 <= row * l.width + col < |l.tileDefs|
    ensures l.GetTileDefAtPosition(row, col) == Ok(l.tileDefs[row * l.width + col])
  {
    MulMono(row + 1, l.height, l.width);
    assert (row + 1) * l.width == row * l.width + l.width;
    assert l.height * l.width == l.width * l.height;
  }

  /** A column one past the last wraps to the first cell of the next row: only the flat index
      is range-checked. */
  lemma PositionWrapsToNextRow(l: TileLayer, row: int)
    requires FullGrid(l) && 0 < l.width
    requires 0 <= row < l.height - 1
    ensures l.GetTileDefAtPosition(row, l.width) == l.GetTileDefAtPosition(row + 1, 0)
    ensures l.GetTileDefAtPosition(row, l.width).Ok?
  {
    assert row * l.width + l.width == (row + 1) * l.width + 0;
    PositionInGrid(l, row + 1, 0);
  }

  /** The last cell of a non-empty grid is in bounds; the position (height, width) is not. */
  lemma GridCorners(l: TileLayer)
    requires FullGrid(l) && 0 < l.width && 0 < l.height
    ensures l.GetTileDefAtPosition(l.height - 1, l.width - 1).Ok?
    ensures l.GetTileDefAtPosition(l.height, l.width) ==
      Err(TileDefOutOfBoundsPosition(l.height, l.width))
  {
    PositionInGrid(l, l.height - 1, l.width - 1);
    MulAtLeast(l.height, l.width);
    assert l.height * l.width == l.width * l.height;
  }

  /** `TileLayers.WithName`: the first layer with the name, or nothing. */
  function TileLayersWithName(tl: seq<TileLayer>, name: string): (r: Option<TileLayer>)
    ensures r.None? <==> forall j :: 0 <= j < |tl| ==> tl[j].name != name
    ensures r.Some? ==> exists i :: 0 <= i < |tl| && tl[i] == r.value && r.value.name == name &&
                                    forall j :: 0 <= j < i ==> tl[j].name != name
  {
    Lookup.FirstMatch(tl, (l: TileLayer) => l.name == name)
  }
}

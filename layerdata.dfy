/** The payload of a tile layer's <data> element (tiled/tilelayer.go, decodeLayerData): the
    encoding and compression tags, the CSV text of global IDs, and the little-endian stream of
    32-bit global IDs a base64 payload decodes to. Base64 and the zlib, gzip and zstd
    decompressors are library code outside the model and are passed in as `Codecs`, each giving
    the stream of bytes it delivers. */
module LayerData {
  import opened Wrappers
  import opened Errors
  import opened Text
  import opened GlobalIds

  type byte = x: int | 0 <= x < 256

  /** The <data> element: its two tags and its raw inner text. */
  datatype Data = Data(encoding: string, compression: string, rawBytes: string)

  /** What a reader yields before it stops: the bytes it delivers, then the error it stops
      with, or None when it reaches a clean io.EOF. */
  datatype Stream = Stream(bytes: seq<byte>, end: Option<Error>)

  /** The library decoders, as readers layered on one another: the base64 decoder (RFC 4648
      section 4) streams the bytes of the text and stops at corrupt input; the zlib (RFC 1950)
      and gzip (RFC 1952) readers fail at construction or stream the decompressed bytes of the
      stream beneath them, stopping at its error or at their own (a bad checksum, say); zstd
      (RFC 8878) is read to the end before any word is read, so it yields all its bytes or an
      error. */
  datatype Codecs = Codecs(
    base64: string -> Stream,
    zlib: Stream -> Result<Stream>,
    gzip: Stream -> Result<Stream>,
    zstd: Stream -> Result<seq<byte>>)

  // ---------------------------------------------------------------------------------------
  // Little-endian words

  /** The little-endian uint32 of four bytes, as `binary.Read` with `binary.LittleEndian`:
      b[0] + 2^8 b[1] + 2^16 b[2] + 2^24 b[3]. */
  function LE(b: seq<byte>): (r: u32)
    requires |b| == 4
  {
    var b0, b1, b2, b3: int := b[0], b[1], b[2], b[3];
    b0 + 0x100 * (b1 + 0x100 * (b2 + 0x100 * b3))
  }

  /** The four bytes of a word, least significant first. */
  function EncodeLE(w: u32): (r: seq<byte>)
    ensures |r| == 4
  {
    var q1 := w / 0x100;
    var q2 := q1 / 0x100;
    [w % 0x100, q1 % 0x100, q2 % 0x100, q2 / 0x100]
  }

  /** LE and EncodeLE are inverse bijections between words and 4-byte groups. */
  lemma LERoundTrip(w: u32, b: seq<byte>)
    requires |b| == 4
    ensures LE(EncodeLE(w)) == w
    ensures EncodeLE(LE(b)) == b
  {
  }

  /** The reads of the base64 path: one word per full 4-byte group, in order; a trailing group
      of 1 to 3 bytes is io.ErrUnexpectedEOF after the full groups, and an empty rest ends the
      stream cleanly. */
  function ReadWords(b: seq<byte>): (r: (seq<GlobalID>, Option<Error>))
    ensures |r.0| == |b| / 4
    ensures r.1 == (if |b| % 4 == 0 then None else Some(UnexpectedEOF))
  {
    if |b| == 0 then ([], None)
    else if |b| < 4 then ([], Some(UnexpectedEOF))
    else
      var (rest, e) := ReadWords(b[4..]);
      ([LE(b[..4])] + rest, e)
  }

  /** Word k of the stream is the little-endian value of bytes 4k to 4k+3. */
  lemma {:induction false} ReadWordsAt(b: seq<byte>, k: nat)
    requires k < |b| / 4
    ensures 4 * k + 4 <= |b| && ReadWords(b).0[k] == LE(b[4 * k..4 * k + 4])
  {
    if k > 0 {
      ReadWordsAt(b[4..], k - 1);
      assert b[4..][4 * (k - 1)..4 * (k - 1) + 4] == b[4 * k..4 * k + 4];
    }
  }

  function EncodeWords(ws: seq<GlobalID>): (r: seq<byte>)
    ensures |r| == 4 * |ws|
  {
    if ws == [] then [] else EncodeLE(ws[0]) + EncodeWords(ws[1..])
  }

  /** The byte stream of a sequence of words reads back as exactly those words. */
  lemma {:induction false} ReadEncodedWords(ws: seq<GlobalID>)
    ensures ReadWords(EncodeWords(ws)) == (ws, None)
  {
    if ws != [] {
      var b := EncodeWords(ws);
      LERoundTrip(ws[0], EncodeLE(ws[0]));
      assert b[..4] == EncodeLE(ws[0]) && b[4..] == EncodeWords(ws[1..]);
      ReadEncodedWords(ws[1..]);
      assert [ws[0]] + ws[1..] == ws;
    }
  }

  // ---------------------------------------------------------------------------------------
  // CSV

  /** One CSV token: trimmed, then `strconv.ParseUint(_, 10, 32)`. */
  function ParseRef(token: string): (r: Result<GlobalID>)
  {
    var v :- ParseUint(TrimSpace(token), 32);
    Ok(v)
  }

  /** The IDs of the tokens up to the first bad one, and that token's error if there is one. */
  function ParseRefs(tokens: seq<string>): (r: (seq<GlobalID>, Option<Error>))
    ensures |r.0| <= |tokens|
    ensures forall k :: 0 <= k < |r.0| ==> ParseRef(tokens[k]) == Ok(r.0[k])
    ensures r.1.None? ==> |r.0| == |tokens|
    ensures r.1.Some? ==> |r.0| < |tokens| && ParseRef(tokens[|r.0|]) == Err(r.1.value)
  {
    CollectSpec(tokens, ParseRef);
    Collect(tokens, ParseRef)
  }

  /** The CSV payload: the text split on commas, every token an ID. */
  function ParseCsv(text: string): (r: (seq<GlobalID>, Option<Error>))
    ensures r.1.None? ==> |r.0| == Count(text, ',') + 1
  {
    ParseRefs(Split(text, ','))
  }

  /** Empty CSV text is an error, and so is a trailing comma: both leave an empty token. */
  lemma CsvRejectsEmptyTokens(text: string)
    ensures ParseCsv("").1 == Some(NumSyntax(""))
    ensures ParseCsv(text + ",").1.Some?
  {
    var tokens := Split(text + ",", ',');
    SplitTrailingSeparator(text, ',');
  }

  function DecimalTokens(ids: seq<GlobalID>): (r: seq<string>)
    ensures |r| == |ids|
    ensures forall k :: 0 <= k < |ids| ==> r[k] == FormatDecimal(ids[k])
  {
    if ids == [] then [] else [FormatDecimal(ids[0])] + DecimalTokens(ids[1..])
  }

  /** The CSV text of a non-empty list of IDs. */
  function FormatCsv(ids: seq<GlobalID>): string
  {
    Join(DecimalTokens(ids), ',')
  }

  lemma ParseDecimalTokens(ids: seq<GlobalID>)
    ensures ParseRefs(DecimalTokens(ids)) == (ids, None)
  {
    var tokens := DecimalTokens(ids);
    forall k | 0 <= k < |ids|
      ensures ParseRef(tokens[k]) == Ok(ids[k])
    {
      TrimDecimal(ids[k]);
      ParseUintFormatDecimal(ids[k], 32);
    }
    CollectOf(tokens, ParseRef, ids, None);
  }

  /** Every non-empty list of IDs written as CSV parses back to the same list. */
  lemma CsvRoundTrip(ids: seq<GlobalID>)
    requires |ids| >= 1
    ensures ParseCsv(FormatCsv(ids)) == (ids, None)
  {
    var tokens := DecimalTokens(ids);
    forall k | 0 <= k < |tokens| ensures ',' !in tokens[k] {
      var d := FormatDecimal(ids[k]);
      assert forall j :: 0 <= j < |d| ==> IsDigit(d[j]);
    }
    SplitJoin(tokens, ',');
    ParseDecimalTokens(ids);
  }

  // ---------------------------------------------------------------------------------------
  // Dispatch

  predicate KnownCompression(c: string)
  {
    c == "zlib" || c == "gzip" || c == "zstd" || c == ""
  }

  /** The stream the word loop reads from: the base64 decoder over the trimmed text, then the
      named decompressor ("" for none); an error here is a reader that could not be built, or
      zstd's read to the end failing. */
  function Inflate(d: Data, codecs: Codecs): (r: Result<Stream>)
    requires KnownCompression(d.compression)
    ensures var raw := codecs.base64(TrimSpace(d.rawBytes));
      (d.compression == "" ==> r == Ok(raw)) &&
      (d.compression == "zlib" ==> r == codecs.zlib(raw)) &&
      (d.compression == "gzip" ==> r == codecs.gzip(raw))
    ensures d.compression == "zstd" ==>
      (r.Err? <==> codecs.zstd(codecs.base64(TrimSpace(d.rawBytes))).Err?) &&
      (r.Ok? ==> r.value.end.None?)
  {
    var raw := codecs.base64(TrimSpace(d.rawBytes));
    match d.compression
    case "zlib" => codecs.zlib(raw)
    case "gzip" => codecs.gzip(raw)
    case "zstd" =>
      var all :- codecs.zstd(raw);
      Ok(Stream(all, None))
    case _ => Ok(raw)
  }

  /** The `binary.Read` loop over a stream: the full words it delivers are appended; a stream
      that stops with an error ends the loop with that error (io.ReadFull passes it on whether
      or not a partial word precedes it); a clean end is ReadWords' ending. */
  function ReadStream(s: Stream): (r: (seq<GlobalID>, Option<Error>))
    ensures |r.0| == |s.bytes| / 4
    ensures s.end.Some? ==> r.1 == s.end
    ensures s.end.None? ==> r.1 == (if |s.bytes| % 4 == 0 then None else Some(UnexpectedEOF))
  {
    var (words, e) := ReadWords(s.bytes);
    (words, if s.end.Some? then s.end else e)
  }

  /** The references a <data> element decodes to, and the error that stopped the decoding. */
  function DecodePayload(d: Data, codecs: Codecs): (r: (seq<GlobalID>, Option<Error>))
    ensures d.encoding == "" ==> r == ([], None)
    ensures d.encoding !in {"base64", "csv", ""} ==> r == ([], Some(UnsupportedEncoding(d.encoding)))
    ensures d.encoding == "base64" && !KnownCompression(d.compression) ==>
      r == ([], Some(UnsupportedCompression(d.compression)))
    ensures d.encoding == "csv" ==> r == ParseCsv(d.rawBytes)
    ensures d.encoding == "base64" && KnownCompression(d.compression) ==>
      match Inflate(d, codecs)
      case Err(e) => r == ([], Some(e))
      case Ok(s) => r == ReadStream(s)
  {
    if d.encoding == "base64" then
      if !KnownCompression(d.compression) then ([], Some(UnsupportedCompression(d.compression)))
      else match Inflate(d, codecs)
        case Err(e) => ([], Some(e))
        case Ok(s) => ReadStream(s)
    else if d.encoding == "csv" then ParseCsv(d.rawBytes)
    else if d.encoding == "" then ([], None)
    else ([], Some(UnsupportedEncoding(d.encoding)))
  }

  /** A base64 payload whose readers could be built yields one reference per full 4-byte group
      the stream delivers, each the group read little-endian, even when the stream then stops
      with an error; there is no error exactly when the stream ends cleanly after whole words,
      and a stream that stops with an error reports that error. */
  lemma Base64WordCount(d: Data, codecs: Codecs)
    requires d.encoding == "base64" && KnownCompression(d.compression) && Inflate(d, codecs).Ok?
    ensures var s := Inflate(d, codecs).value;
      var r := DecodePayload(d, codecs);
      |r.0| == |s.bytes| / 4 &&
      (forall k :: 0 <= k < |r.0| ==> r.0[k] == LE(s.bytes[4 * k..4 * k + 4])) &&
      (r.1.None? <==> s.end.None? && |s.bytes| % 4 == 0) &&
      (s.end.Some? ==> r.1 == s.end)
  {
    var s := Inflate(d, codecs).value;
    forall k | 0 <= k < |s.bytes| / 4
      ensures ReadWords(s.bytes).0[k] == LE(s.bytes[4 * k..4 * k + 4])
    {
      ReadWordsAt(s.bytes, k);
    }
  }
}

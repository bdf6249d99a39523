/** The error values the loader reports (tiled/errors.go), one constructor per sentinel,
    carrying the context the source formats into its message. Errors the source wraps with
    `%w` keep the wrapped error as `cause`. */
module Errors {

  datatype Error =
    | UnsupportedEncoding(encoding: string)
    | UnsupportedCompression(compression: string)
    | NoSuitableTileset(globalID: int)
    | PropertyWrongType(expected: string)
    | PropertyFailedConversion(cause: Error)
    | UnknownOrientation(text: string)
    | UnknownRenderOrder(text: string)
    | UnknownObjectAlignment(text: string)
    | UnknownHAlignment(text: string)
    | UnknownVAlignment(text: string)
    | UnknownImageFormat(text: string)
    | UnknownDrawOrder(text: string)
    | UnknownPropertyType(text: string)
    | OpeningTileset(cause: Error)
    | DecodingTileset(cause: Error)
    | TilesetMissingImage
    | OpeningTemplate(cause: Error)
    | DecodingTemplate(cause: Error)
    | TileDefOutOfBoundsIndex(index: int)
    | TileDefOutOfBoundsPosition(row: int, col: int)
    | TerrainArity(raw: string, count: nat)
    | PointArity(count: nat, token: string)
    // strconv.ErrSyntax and strconv.ErrRange, with the text that was being converted
    | NumSyntax(num: string)
    | NumRange(num: string)
    // io.ErrUnexpectedEOF: a fixed-width read found fewer bytes than it needed
    | UnexpectedEOF
    // an error produced by a collaborator outside the model (decompressor, file system, XML)
    | External(detail: string)
}

/** Images (tiled/image.go): the image record and the case-insensitive format parser. */
module Images {
  import opened Wrappers
  import opened Errors
  import opened Text

  datatype ImageFormat = Png | Gif | Jpg | Bmp

  /** The image attributes of an <image> element. Embedded image data is not decoded by the
      loader and is not part of this record. */
  datatype Image = Image(
    format: ImageFormat,
    source: string,
    transparentColor: string,
    width: int,
    height: int)

  /** The lower-case name of each format, as the TMX format writes it. */
  function FormatName(f: ImageFormat): string
  {
    match f
    case Png => "png"
    case Gif => "gif"
    case Jpg => "jpg"
    case Bmp => "bmp"
  }

  /** `ImageFormat.UnmarshalText`: the text lower-cased must be one of the four names; anything
      else is an error carrying the lower-cased text. */
  function ParseImageFormat(text: string): (r: Result<ImageFormat>)
    ensures r.Ok? <==> ToLower(text) in {"png", "gif", "jpg", "bmp"}
    ensures r.Ok? ==> FormatName(r.value) == ToLower(text)
    ensures r.Err? ==> r.error == UnknownImageFormat(ToLower(text))
  {
    var s := ToLower(text);
    if s == "png" then Ok(Png)
    else if s == "gif" then Ok(Gif)
    else if s == "jpg" then Ok(Jpg)
    else if s == "bmp" then Ok(Bmp)
    else Err(UnknownImageFormat(s))
  }

  /** Parsing ignores letter case. */
  lemma ParseImageFormatIgnoresCase(text: string)
    ensures ParseImageFormat(text) == ParseImageFormat(ToLower(text))
  {
    ToLowerIdempotent(text);
  }

  /** Every format's name parses back to that format, in any letter case. */
  lemma ParseImageFormatName(f: ImageFormat, text: string)
    requires ToLower(text) == FormatName(f)
    ensures ParseImageFormat(text) == Ok(f)
  {
  }

  /** "jpeg" and the empty text are not formats. */
  lemma ParseImageFormatRejects()
    ensures ParseImageFormat("jpeg") == Err(UnknownImageFormat("jpeg"))
    ensures ParseImageFormat("") == Err(UnknownImageFormat(""))
  {
    assert ToLower("jpeg") == "jpeg";
  }
}

/**
  * The output-format decision of `convertImage`
  * (src/modules/app/app.service.ts, lines 171-201). The pixel work itself
  * (decoding, resizing, encoding) belongs to the image library and is kept
  * uninterpreted: an `ImageCodec` value supplies it as functions.
  */
module ImageFormat {
  import opened Common
  import opened Text
  import opened Addressing

  /** `ContentFormat.Webp`, the default output format. */
  const Webp: string := "webp"
  /** `ContentFormat.Avif`. */
  const Avif: string := "avif"

  /** The bounding box handed to `resize`; an absent side is left to the library. */
  datatype Resize = Resize(width: Option<int>, height: Option<int>)

  /** How the resized image is written out: in its own format, or re-encoded with the requested quality. */
  datatype Encoding = KeepFormat | WebpAt(quality: Option<int>) | AvifAt(quality: Option<int>)

  /** `BadRequestException(ErrorMsg.NotExtConverImage)`: the requested format cannot be produced. */
  datatype ConvertError = UnsupportedExtension

  /**
    * The image library, uninterpreted: `formatOf` is the format its metadata
    * reports, `render` resizes and encodes, `normalize` is the plain
    * decode-and-encode applied to an upload.
    */
  datatype ImageCodec = ImageCodec(
    formatOf: Bytes -> string,
    render: (Bytes, Resize, Encoding) -> Bytes,
    normalize: Bytes -> Bytes)

  /** `value || undefined` for a side of the box: zero counts as absent. */
  function Side(value: Option<int>): Option<int> {
    if value == Some(0) then None else value
  }

  /** The box requested by a query; a side given as 0 is dropped, every other value is kept. */
  function ResizeOf(q: Query): (r: Resize)
    ensures r.width != Some(0) && r.height != Some(0)
    ensures q.width != Some(0) ==> r.width == q.width
    ensures q.height != Some(0) ==> r.height == q.height
  {
    Resize(Side(q.width), Side(q.height))
  }

  /** The requested extension, `webp` when none is given, lower-cased. */
  function RequestedFormat(extension: Option<string>): string {
    Lower(extension.GetOr(Webp))
  }

  /**
    * The format branch: the source's own format is kept (only resizing
    * applies and `quality` is ignored), `webp` and `avif` are re-encoded with
    * the requested quality, and every other extension is refused.
    */
  function ChooseEncoding(sourceFormat: string, extension: Option<string>, quality: Option<int>)
    : (r: Result<Encoding, ConvertError>)
    ensures r.Err? <==> RequestedFormat(extension) !in {sourceFormat, Webp, Avif}
    ensures r == Ok(KeepFormat) <==> RequestedFormat(extension) == sourceFormat
    ensures r.Ok? && r.value.WebpAt? <==> RequestedFormat(extension) == Webp != sourceFormat
    ensures r.Ok? && r.value.AvifAt? <==> RequestedFormat(extension) == Avif != sourceFormat
    ensures r.Ok? && !r.value.KeepFormat? ==> r.value.quality == quality
  {
    var ext := RequestedFormat(extension);
    if sourceFormat == ext then Ok(KeepFormat)
    else if ext == Webp then Ok(WebpAt(quality))
    else if ext == Avif then Ok(AvifAt(quality))
    else Err(UnsupportedExtension)
  }

  /**
    * `convertImage` (app.service.ts, lines 171-201): refused exactly when the
    * requested format is none of the image's own format, WebP and AVIF;
    * otherwise the image resized to the query's box and written in its own
    * format, or re-encoded as WebP or AVIF at the requested quality.
    */
  function ConvertImage(codec: ImageCodec, image: Bytes, q: Query): (r: Result<Bytes, ConvertError>)
    ensures r.Err? <==> RequestedFormat(q.extension) !in {codec.formatOf(image), Webp, Avif}
    ensures RequestedFormat(q.extension) == codec.formatOf(image) ==>
      r == Ok(codec.render(image, ResizeOf(q), KeepFormat))
    ensures RequestedFormat(q.extension) == Webp != codec.formatOf(image) ==>
      r == Ok(codec.render(image, ResizeOf(q), WebpAt(q.quality)))
    ensures RequestedFormat(q.extension) == Avif != codec.formatOf(image) ==>
      r == Ok(codec.render(image, ResizeOf(q), AvifAt(q.quality)))
  {
    match ChooseEncoding(codec.formatOf(image), q.extension, q.quality)
    case Err(e) => Err(e)
    case Ok(encoding) => Ok(codec.render(image, ResizeOf(q), encoding))
  }

  /** The extension is compared case-insensitively. */
  lemma ExtensionCaseInsensitive(sourceFormat: string, extension: string, quality: Option<int>)
    ensures ChooseEncoding(sourceFormat, Some(extension), quality)
         == ChooseEncoding(sourceFormat, Some(Lower(extension)), quality)
  {
    LowerIdempotent(extension);
  }

  /** Without an extension the result is always an image: WebP, or the source itself when it already is WebP. */
  lemma DefaultExtensionSucceeds(sourceFormat: string, quality: Option<int>)
    ensures ChooseEncoding(sourceFormat, None, quality)
         == if sourceFormat == Webp then Ok(KeepFormat) else Ok(WebpAt(quality))
  {
  }

  /** A width or height of 0 produces the same image as an absent one. */
  lemma ZeroSideIsAbsent(codec: ImageCodec, image: Bytes, q: Query)
    ensures ConvertImage(codec, image, q.(width := Some(0))) == ConvertImage(codec, image, q.(width := None))
    ensures ConvertImage(codec, image, q.(height := Some(0))) == ConvertImage(codec, image, q.(height := None))
  {
  }

  /** A refused extension is refused whatever the image and the size parameters. */
  lemma UnsupportedExtensionRefused(codec: ImageCodec, image: Bytes, q: Query)
    requires RequestedFormat(q.extension) !in {codec.formatOf(image), Webp, Avif}
    ensures ConvertImage(codec, image, q) == Err(UnsupportedExtension)
  {
  }
}

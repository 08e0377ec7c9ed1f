/**
  * `AppService` (src/modules/app/app.service.ts): uploading an image with its
  * metadata record, and serving a resized or re-encoded variant from the
  * variant cache kept in Riak, recomputing it when it is missing or older than
  * the origin's metadata record.
  *
  * The functions below say what one call does to the store; the class
  * `AppService` performs the same calls step by step against a `RiakStore`.
  * Its entry points `UploadContent`, `ConvertContent` and `FetchConvertImage`
  * are proved equal to `Upload`, `Convert` and `FetchConvert`; the two upload
  * helpers `UploadImage` and `InsertImageMetadata` state their store update
  * directly.
  */
module App {
  import opened Common
  import opened Text
  import opened Addressing
  import opened MetadataRecord
  import opened ImageFormat
  import opened Riak

  /** `ContentType`: only images are implemented. */
  datatype ContentType = Image | Unimplemented(name: string)

  /** The fields of the uploaded multipart file the service uses. */
  datatype UploadedFile = UploadedFile(originalName: string, buffer: Bytes, mimeType: string)

  /** The errors the service throws. */
  datatype ServiceError =
    | InDevelopment(contentType: string)  // `new Error(`${contentType} in developing`)`
    | BadRequest(reason: ConvertError)     // thrown by `convertImage`

  /** The configuration values read through `ConfigService`, and the image library. */
  datatype Config = Config(riakUrl: string, siteUrl: string, codec: ImageCodec)

  /** What `fetchConvertImage` hands back: the bytes, where they belong, and whether they were just computed. */
  datatype Fetched = Fetched(data: Bytes, url: string, mimeType: string, hasUpdated: bool)

  const JsonContentType: string := "application/json"

  /**
    * The mime type a variant is stored with (app.service.ts, line 166):
    * `image/` followed by the requested extension as given, or by the word
    * `undefined` when none was requested.
    */
  function VariantMimeType(extension: Option<string>): (r: string)
    ensures |r| >= 6 && r[..6] == "image/"
    ensures extension.Some? ==> r[6..] == extension.value
    ensures extension.None? ==> r == "image/undefined"
  {
    "image/" + extension.GetOr("undefined")
  }

  /**
    * `fetchImageMetadataOrigin` (lines 203-220): the date of the metadata
    * record at `url`. There is no record exactly when nothing is stored there
    * or the stored body is `null`.
    */
  function ReadMetadata(objects: map<string, StoredObject>, url: string): (r: Option<JsDate>)
    ensures r.None? <==> url !in objects || FromBytes(objects[url].data) == "null"
  {
    match Lookup(objects, url)
    case None => None
    case Some(record) => Decode(record.data)
  }

  /**
    * The recompute test of `fetchConvertImage`: no cached variant, or one whose
    * Last-Modified time is known and strictly earlier than the metadata date.
    * A comparison with the Invalid Date is false.
    */
  function NeedsRecompute(cached: Option<StoredObject>, originDate: JsDate): (r: bool)
    ensures cached.None? ==> r
    ensures cached.Some? && cached.value.lastModified.None? ==> !r
    ensures originDate.Invalid? ==> (r <==> cached.None?)
    ensures cached.Some? && cached.value.lastModified.Some? && originDate.Valid? ==>
      (r <==> cached.value.lastModified.value < originDate.ms)
  {
    || cached.None?
    || (cached.value.lastModified.Some? && originDate.Valid? && cached.value.lastModified.value < originDate.ms)
  }

  /** `fetchConvertImage`: reads only; `Ok(None)` is its `null`. */
  function FetchConvert(config: Config, objects: map<string, StoredObject>, group: string, key: string, q: Query)
    : (r: Result<Option<Fetched>, ServiceError>)
    ensures r.Ok? && r.value.Some? ==>
      && r.value.value.url == VariantAddress(config.riakUrl, group, key, q)
      && r.value.value.mimeType == VariantMimeType(q.extension)
    ensures ReadMetadata(objects, MetadataAddress(config.riakUrl, group, key)).None? ==> r == Ok(None)
  {
    match ReadMetadata(objects, MetadataAddress(config.riakUrl, group, key))
    case None => Ok(None)
    case Some(originDate) =>
      var url := VariantAddress(config.riakUrl, group, key, q);
      var cached := Lookup(objects, url);
      var mimeType := VariantMimeType(q.extension);
      if !NeedsRecompute(cached, originDate) then
        Ok(Some(Fetched(cached.value.data, url, mimeType, false)))
      else
        match Lookup(objects, OriginAddress(config.riakUrl, group, key))
        case None => Ok(None)
        case Some(origin) =>
          match ConvertImage(config.codec, origin.data, q)
          case Err(e) => Err(BadRequest(e))
          case Ok(image) => Ok(Some(Fetched(image, url, mimeType, true)))
  }

  /**
    * `convertContent` as a step of the store: the response (`Ok(None)` is the
    * `null` the controller turns into 404) and the store afterwards.
    */
  function Convert(
    config: Config, objects: map<string, StoredObject>,
    contentType: ContentType, group: string, key: string, q: Query, now: int)
    : (r: (Result<Option<Bytes>, ServiceError>, map<string, StoredObject>))
    ensures contentType.Unimplemented? ==> r == (Err(InDevelopment(contentType.name)), objects)
    ensures r.1 == objects || (r.0.Ok? && r.0.value.Some? &&
      r.1 == objects[VariantAddress(config.riakUrl, group, key, q) :=
                     StoredObject(r.0.value.value, Some(now), VariantMimeType(q.extension))])
  {
    if contentType.Unimplemented? then (Err(InDevelopment(contentType.name)), objects)
    else
      match FetchConvert(config, objects, group, key, q)
      case Err(e) => (Err(e), objects)
      case Ok(None) => (Ok(None), objects)
      case Ok(Some(f)) =>
        (Ok(Some(f.data)),
         if f.hasUpdated then objects[f.url := StoredObject(f.data, Some(now), f.mimeType)] else objects)
  }

  /**
    * The `lastModified` member `insertImageMetadata` writes (line 47):
    * undefined when the origin could not be read back, otherwise its
    * Last-Modified time, which the reader turns into the epoch when it is
    * missing.
    */
  function StampOf(readBack: Option<StoredObject>): (r: Stamp)
    ensures r.Undefined? <==> readBack.None?
    ensures readBack.Some? ==> DateOf(r) == Valid(readBack.value.lastModified.GetOr(0))
  {
    match readBack
    case None => Undefined
    case Some(origin) =>
      match origin.lastModified
      case None => Null
      case Some(t) => At(t)
  }

  /**
    * `uploadContent` as a step of the store: the returned URL and the store
    * afterwards. An image upload adds or replaces exactly the origin and its
    * metadata record and leaves every other object alone.
    */
  function Upload(
    config: Config, objects: map<string, StoredObject>,
    file: UploadedFile, contentType: ContentType, group: string, now: int)
    : (r: (Result<string, ServiceError>, map<string, StoredObject>))
    ensures contentType.Unimplemented? ==> r == (Err(InDevelopment(contentType.name)), objects)
    ensures contentType.Image? ==>
      var originUrl := OriginAddress(config.riakUrl, group, file.originalName);
      var metaUrl := MetadataAddress(config.riakUrl, group, file.originalName);
      && r.0 == Ok(PublicUrl(config.siteUrl, group, file.originalName))
      && r.1.Keys == objects.Keys + {originUrl, metaUrl}
      && r.1[originUrl] == StoredObject(config.codec.normalize(file.buffer), Some(now), file.mimeType)
      && (forall u :: u in objects && u != originUrl && u != metaUrl ==> r.1[u] == objects[u])
  {
    if contentType.Unimplemented? then (Err(InDevelopment(contentType.name)), objects)
    else
      var originUrl := OriginAddress(config.riakUrl, group, file.originalName);
      var withImage := objects[originUrl := StoredObject(config.codec.normalize(file.buffer), Some(now), file.mimeType)];
      var stamp := StampOf(Lookup(withImage, originUrl));
      var withRecord :=
        withImage[MetadataAddress(config.riakUrl, group, file.originalName) := StoredObject(Encode(stamp), Some(now), JsonContentType)];
      (Ok(PublicUrl(config.siteUrl, group, file.originalName)), withRecord)
  }

  class AppService {
    const config: Config
    /** The Riak store reached through axios. */
    const riak: RiakStore

    constructor (config: Config, riak: RiakStore)
      ensures this.config == config && this.riak == riak
    {
      this.config := config;
      this.riak := riak;
    }

    /** `uploadContent`: store the image, then its metadata record, and return the public URL. */
    method UploadContent(file: UploadedFile, contentType: ContentType, group: string, now: int)
      returns (r: Result<string, ServiceError>)
      modifies riak
      ensures (r, riak.objects) == Upload(config, old(riak.objects), file, contentType, group, now)
    {
      if contentType.Unimplemented? {
        return Err(InDevelopment(contentType.name));
      }
      var _ := UploadImage(file, group, now);
      InsertImageMetadata(file, group, now);
      r := Ok(PublicUrl(config.siteUrl, group, file.originalName));
    }

    /** `insertImageMetadata`: read the origin back and record its Last-Modified time. */
    method InsertImageMetadata(file: UploadedFile, group: string, now: int)
      modifies riak
      ensures riak.objects == old(riak.objects)[MetadataAddress(config.riakUrl, group, file.originalName) :=
        StoredObject(Encode(StampOf(Lookup(old(riak.objects), OriginAddress(config.riakUrl, group, file.originalName)))),
                     Some(now), JsonContentType)]
    {
      var urlOriginImage := OriginAddress(config.riakUrl, group, file.originalName);
      var imageOrigin := riak.Get(urlOriginImage);
      var urlMetadataOriginImage := MetadataAddress(config.riakUrl, group, file.originalName);
      riak.Post(urlMetadataOriginImage, Encode(StampOf(imageOrigin)), JsonContentType, now);
    }

    /** `uploadImage`: store the normalised image at the lower-cased key; return the path with the key as given. */
    method UploadImage(file: UploadedFile, group: string, now: int) returns (path: string)
      modifies riak
      ensures riak.objects == old(riak.objects)[OriginAddress(config.riakUrl, group, file.originalName) :=
        StoredObject(config.codec.normalize(file.buffer), Some(now), file.mimeType)]
      ensures path == UploadPath(group, file.originalName)
    {
      var url := OriginAddress(config.riakUrl, group, file.originalName);
      var image := config.codec.normalize(file.buffer);
      riak.Post(url, image, file.mimeType, now);
      path := UploadPath(group, file.originalName);
    }

    /** `convertContent`: fetch or recompute the variant, and write it back when it was recomputed. */
    method ConvertContent(contentType: ContentType, group: string, key: string, q: Query, now: int)
      returns (r: Result<Option<Bytes>, ServiceError>)
      modifies riak
      ensures (r, riak.objects) == Convert(config, old(riak.objects), contentType, group, key, q, now)
    {
      if contentType.Unimplemented? {
        return Err(InDevelopment(contentType.name));
      }
      var content := FetchConvertImage(group, key, q);
      if content.Err? {
        return Err(content.error);
      }
      if content.value.Some? && content.value.value.hasUpdated {
        var f := content.value.value;
        riak.Post(f.url, f.data, f.mimeType, now);
      }
      r := if content.value.Some? then Ok(Some(content.value.value.data)) else Ok(None);
    }

    /** `fetchConvertImage`: decide between the cached variant and a fresh conversion; writes nothing. */
    method FetchConvertImage(group: string, key: string, q: Query) returns (r: Result<Option<Fetched>, ServiceError>)
      ensures r == FetchConvert(config, riak.objects, group, key, q)
    {
      var urlMetadataOriginImage := MetadataAddress(config.riakUrl, group, key);
      var imageMetadataOrigin := ReadMetadata(riak.objects, urlMetadataOriginImage);
      if imageMetadataOrigin.None? {
        return Ok(None);
      }
      var urlConvertImage := VariantAddress(config.riakUrl, group, key, q);
      var imageConvert := riak.Get(urlConvertImage);
      var content: Option<Bytes> := if imageConvert.Some? then Some(imageConvert.value.data) else None;
      var hasUpdated := false;
      if NeedsRecompute(imageConvert, imageMetadataOrigin.value) {
        var imageOrigin := riak.Get(OriginAddress(config.riakUrl, group, key));
        if imageOrigin.None? {
          return Ok(None);
        }
        var converted := ConvertImage(config.codec, imageOrigin.value.data, q);
        if converted.Err? {
          return Err(BadRequest(converted.error));
        }
        content := Some(converted.value);
        hasUpdated := true;
      }
      r := Ok(Some(Fetched(content.value, urlConvertImage, VariantMimeType(q.extension), hasUpdated)));
    }
  }
}

/**
  * What the variant cache promises, stated over the step functions of `App`:
  * when a fetch writes, what it returns, and how uploads and fetches follow
  * one another.
  */
module AppProperties {
  import opened Common
  import opened Text
  import opened Addressing
  import opened MetadataRecord
  import opened ImageFormat
  import opened Riak
  import opened App

  /** Content types other than images are refused by both entry points, and the store is left alone. */
  lemma OnlyImagesAccepted(
    config: Config, objects: map<string, StoredObject>, name: string,
    file: UploadedFile, group: string, key: string, q: Query, now: int)
    ensures Convert(config, objects, Unimplemented(name), group, key, q, now) == (Err(InDevelopment(name)), objects)
    ensures Upload(config, objects, file, Unimplemented(name), group, now) == (Err(InDevelopment(name)), objects)
  {
  }

  /** The branch a fetch of an image takes, given what the store holds. */
  datatype Outcome = NoRecord | Cached | NoOrigin | Refused | Recomputed

  function OutcomeOf(config: Config, objects: map<string, StoredObject>, group: string, key: string, q: Query): Outcome {
    match ReadMetadata(objects, MetadataAddress(config.riakUrl, group, key))
    case None => NoRecord
    case Some(originDate) =>
      if !NeedsRecompute(Lookup(objects, VariantAddress(config.riakUrl, group, key, q)), originDate) then Cached
      else
        match Lookup(objects, OriginAddress(config.riakUrl, group, key))
        case None => NoOrigin
        case Some(origin) => if ConvertImage(config.codec, origin.data, q).Err? then Refused else Recomputed
  }

  /**
    * The decision table of a fetch: without a metadata record, or when the
    * origin is gone, the answer is `null`; a cached variant that is not older
    * than the record is returned as stored; a refused extension is an error;
    * otherwise the variant is recomputed from the origin and written once, to
    * the variant address, with the request's mime type. Only the last case
    * writes.
    */
  lemma ConvertDecisionTable(
    config: Config, objects: map<string, StoredObject>, group: string, key: string, q: Query, now: int)
    ensures var (r, after) := Convert(config, objects, Image, group, key, q, now);
      var url := VariantAddress(config.riakUrl, group, key, q);
      match OutcomeOf(config, objects, group, key, q)
      case NoRecord => r == Ok(None) && after == objects
      case Cached => url in objects && r == Ok(Some(objects[url].data)) && after == objects
      case NoOrigin => r == Ok(None) && after == objects
      case Refused => r == Err(BadRequest(UnsupportedExtension)) && after == objects
      case Recomputed =>
        var origin := objects[OriginAddress(config.riakUrl, group, key)];
        var image := ConvertImage(config.codec, origin.data, q).value;
        r == Ok(Some(image)) && after == objects[url := StoredObject(image, Some(now), VariantMimeType(q.extension))]
  {
  }

  /**
    * A variant without a Last-Modified time is never recomputed: as long as a
    * metadata record exists it is served as stored, however old it is.
    */
  lemma UndatedVariantAlwaysServed(
    config: Config, objects: map<string, StoredObject>, group: string, key: string, q: Query, now: int)
    requires ReadMetadata(objects, MetadataAddress(config.riakUrl, group, key)).Some?
    requires VariantAddress(config.riakUrl, group, key, q) in objects
    requires objects[VariantAddress(config.riakUrl, group, key, q)].lastModified.None?
    ensures Convert(config, objects, Image, group, key, q, now)
         == (Ok(Some(objects[VariantAddress(config.riakUrl, group, key, q)].data)), objects)
  {
  }

  /** Keys are case-insensitive: two keys that lower-case alike are fetched identically. */
  lemma ConvertIgnoresKeyCase(
    config: Config, objects: map<string, StoredObject>, contentType: ContentType,
    group: string, k1: string, k2: string, q: Query, now: int)
    requires Lower(k1) == Lower(k2)
    ensures Convert(config, objects, contentType, group, k1, q, now) == Convert(config, objects, contentType, group, k2, q, now)
  {
  }

  /** The metadata date is not later than `now` (or is not a valid date). */
  predicate RecordNotAfter(objects: map<string, StoredObject>, url: string, now: int) {
    match ReadMetadata(objects, url)
    case Some(Valid(m)) => m <= now
    case _ => true
  }

  /**
    * A second fetch with the same parameters returns the bytes of the first
    * and writes nothing, as long as the metadata record is not dated after
    * the first fetch: the transformer runs at most once.
    */
  lemma SecondFetchHitsCache(
    config: Config, objects: map<string, StoredObject>, group: string, key: string, q: Query,
    now: int, later: int, image: Bytes)
    requires Convert(config, objects, Image, group, key, q, now).0 == Ok(Some(image))
    requires RecordNotAfter(objects, MetadataAddress(config.riakUrl, group, key), now)
    ensures var after := Convert(config, objects, Image, group, key, q, now).1;
      Convert(config, after, Image, group, key, q, later) == (Ok(Some(image)), after)
  {
  }

  /** The store after an image upload: the origin at the lower-cased key, then a record of its time. */
  lemma UploadStoresOriginAndRecord(
    config: Config, objects: map<string, StoredObject>, file: UploadedFile, group: string, now: int)
    ensures var (r, after) := Upload(config, objects, file, Image, group, now);
      var originUrl := OriginAddress(config.riakUrl, group, file.originalName);
      var metaUrl := MetadataAddress(config.riakUrl, group, file.originalName);
      && r == Ok(PublicUrl(config.siteUrl, group, file.originalName))
      && after == objects[originUrl := StoredObject(config.codec.normalize(file.buffer), Some(now), file.mimeType)]
                         [metaUrl := StoredObject(Encode(At(now)), Some(now), JsonContentType)]
      && ReadMetadata(after, metaUrl) == Some(Valid(now))
  {
    RoundTrip(At(now));
  }

  /**
    * Uploading an image at time `t` makes the next fetch of any of its
    * variants that is missing or older than `t` recompute it from the new
    * image, under any spelling of the key that lower-cases alike, and write it
    * back; this is also the first fetch after a first upload.
    */
  lemma UploadInvalidatesOlderVariants(
    config: Config, objects: map<string, StoredObject>, file: UploadedFile, group: string,
    key: string, q: Query, t: int, later: int)
    requires Lower(key) == Lower(file.originalName)
    requires var url := VariantAddress(config.riakUrl, group, file.originalName, q);
      url in objects ==> objects[url].lastModified.Some? && objects[url].lastModified.value < t
    requires ConvertImage(config.codec, config.codec.normalize(file.buffer), q).Ok?
    ensures var uploaded := Upload(config, objects, file, Image, group, t).1;
      var image := ConvertImage(config.codec, config.codec.normalize(file.buffer), q).value;
      Convert(config, uploaded, Image, group, key, q, later)
        == (Ok(Some(image)),
            uploaded[VariantAddress(config.riakUrl, group, key, q) := StoredObject(image, Some(later), VariantMimeType(q.extension))])
  {
    var uploaded := Upload(config, objects, file, Image, group, t).1;
    var name := file.originalName;
    var originUrl := OriginAddress(config.riakUrl, group, name);
    var metaUrl := MetadataAddress(config.riakUrl, group, name);
    var url := VariantAddress(config.riakUrl, group, name, q);
    assert OriginAddress(config.riakUrl, group, key) == originUrl;
    UploadStoresOriginAndRecord(config, objects, file, group, t);
    AddressesDistinct(config.riakUrl, group, name, q);
    assert Lookup(uploaded, url) == Lookup(objects, url);
    assert OutcomeOf(config, uploaded, group, name, q) == Recomputed;
    ConvertDecisionTable(config, uploaded, group, name, q, later);
    ConvertIgnoresKeyCase(config, uploaded, Image, group, key, name, q, later);
  }
}

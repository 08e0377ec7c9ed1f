# content-service: variant cache and error filter, in Dafny

This project models the core of a NestJS image service. The service does four things:

- It stores uploaded images in Riak.
- It serves resized or re-encoded variants of them.
- It caches each variant in Riak under an address built from the request parameters.
- It turns every thrown exception into an HTTP status and a list of error records.

Modules, one per source component:

- `Common`: `Option`, `Result` and bytes.
- `Text`: ASCII lower-casing, the decimal text of integers and its inverse, and text as bytes.
- `Addressing`: the Riak addresses and the public URL. The addresses are the string templates at `src/modules/app/app.service.ts:222-251`. The public URL is built at `:28` from the path returned at `:69`.
- `MetadataRecord`: the JSON record `{ lastModified }` written next to every origin image, and how it is read back.
- `ImageFormat`: the format branch of `convertImage`. The image library is an uninterpreted `ImageCodec`.
- `Riak`: the store. The class `RiakStore` holds a map from URL to stored object. Its `Post` method replaces an object and stamps it with the store's clock.
- `App`: the step functions `FetchConvert`, `Convert` and `Upload`, and the class `AppService`. The class's methods perform the same reads and writes step by step. The entry points `UploadContent`, `ConvertContent` and `FetchConvertImage` are proved equal to `Upload`, `Convert` and `FetchConvert`. The two upload helpers `UploadImage` and `InsertImageMetadata` state their store update directly.
- `AppProperties`: lemmas about fetches and uploads.
- `Filters`: `HttpExceptionFilter`. `BuildErrors` pushes one record per message in a loop. `Catch` selects the status.

### Behaviour of the code worth knowing

- The variant address is the fixed suffix `,w=…,h=…,q=…,ext=…` after the origin address.
- An upload is stored under the client's file name, lower-cased.
- Freshness is judged against the date in the metadata record, not against the origin object's own timestamp.
- A cached variant without a Last-Modified time counts as fresh.
- A failed read of the store counts as "absent".

## Model

| member | source | states |
|---|---|---|
| `Text.Lower` | src/modules/app/app.service.ts:229 | keys are lower-cased character by character; length is kept |
| `Text.IntToStringInjective` | src/modules/app/app.service.ts:248-250 | two numeric parameters render to the same text exactly when they are equal |
| `Addressing.OriginAddress` | src/modules/app/app.service.ts:222-230 | the origin address is the group's bucket followed by the key with every capital letter lower-cased and every other character kept |
| `Addressing.MetadataAddress` | src/modules/app/app.service.ts:232-237 | the metadata address is the origin address followed by `,metadata`, so it is never the origin address |
| `Addressing.FieldText` | src/modules/app/app.service.ts:248-250 | an absent numeric parameter renders as the empty string; a present one renders as text without a comma that parses back to the number |
| `Addressing.VariantSuffix` | src/modules/app/app.service.ts:248-250 | the parameter list starts with `,w=` and ends with the extension exactly as requested |
| `Addressing.VariantAddress` | src/modules/app/app.service.ts:239-251 | the variant address extends the origin address with the parameter list and differs from both the origin and the metadata address |
| `Addressing.OriginAddressCaseInsensitive` | src/modules/app/app.service.ts:222-230 | two keys share an origin address exactly when they lower-case alike |
| `Addressing.VariantAddressInjective` | src/modules/app/app.service.ts:239-251 | two requests for a key share a variant address exactly when width, height and quality are equal and the extensions render alike; an absent extension and `""` collide |
| `Addressing.AddressesDistinct` | src/modules/app/app.service.ts:232-251 | for one key, the origin, the metadata record and every variant have pairwise different addresses |
| `Addressing.MetadataAddressIsAnOriginAddress` | src/modules/app/app.service.ts:222-237 | the metadata address of `k` is the origin address of the key `k + ",metadata"` |
| `Addressing.PublicUrl` | src/modules/app/app.service.ts:28-69 | the upload URL starts with the site URL and ends with the file name exactly as the client sent it |
| `MetadataRecord.Encode` | src/modules/app/app.service.ts:46-53 | the posted bytes read back, one character per byte, as the JSON text of the record |
| `MetadataRecord.ReadText` | src/modules/app/app.service.ts:212-217 | the body `null` is no record; a record without `lastModified` is the Invalid Date; a valid date comes only from a `null` member or the canonical text of that time |
| `MetadataRecord.Decode` | src/modules/app/app.service.ts:212-217 | stored bytes give no record exactly when they spell `null` |
| `MetadataRecord.RoundTrip` | src/modules/app/app.service.ts:46-53 | a record written with `undefined`, `null` or a time reads back as the Invalid Date, the epoch, or that time |
| `ImageFormat.ResizeOf` | src/modules/app/app.service.ts:183-186 | a width or height of 0 is dropped; every other value reaches the resize |
| `ImageFormat.ChooseEncoding` | src/modules/app/app.service.ts:176-198 | the source format is kept, with quality ignored; otherwise `webp` or `avif` are re-encoded with the quality; any other extension is refused, and refusal happens exactly then |
| `ImageFormat.ConvertImage` | src/modules/app/app.service.ts:171-201 | refused exactly for a format other than the image's own, WebP and AVIF; otherwise the image resized to the query's box, kept in its format or re-encoded as WebP or AVIF at the requested quality |
| `ImageFormat.ExtensionCaseInsensitive` | src/modules/app/app.service.ts:178 | the format decision does not depend on the extension's letter case |
| `ImageFormat.DefaultExtensionSucceeds` | src/modules/app/app.service.ts:176-193 | without an extension the result is WebP, or the image unchanged in format when it already is WebP |
| `ImageFormat.ZeroSideIsAbsent` | src/modules/app/app.service.ts:183-186 | a conversion with width or height 0 equals the conversion without it |
| `ImageFormat.UnsupportedExtensionRefused` | src/modules/app/app.service.ts:194-198 | an extension other than the source format, `webp` and `avif` is a bad request whatever the image and the sizes |
| `Riak.RiakStore.Get` | src/modules/app/app.service.ts:253-273 | a read yields the stored object exactly when one is stored at that URL |
| `Riak.RiakStore.Post` | src/modules/app/app.service.ts:63-67 | a write replaces exactly one object and stamps it with the store's time |
| `App.VariantMimeType` | src/modules/app/app.service.ts:166 | the mime type is `image/` followed by the extension as requested, or `image/undefined` without one |
| `App.ReadMetadata` | src/modules/app/app.service.ts:203-220 | there is no metadata record exactly when nothing is stored at the address or the stored body is `null` |
| `App.NeedsRecompute` | src/modules/app/app.service.ts:141-145 | a missing variant is recomputed; an undated one never is; against an invalid record date only a missing one is; otherwise exactly when its time is earlier than the record's |
| `App.StampOf` | src/modules/app/app.service.ts:47 | the stamp is undefined exactly when the origin could not be read back; otherwise it reads back as the origin's time, or the epoch when it has none |
| `App.Convert` | src/modules/app/app.service.ts:72-103 | other content types fail with "in developing" and change nothing; a fetch either leaves the store alone or writes the answered bytes, stamped now, at the variant address with the variant's mime type |
| `App.Upload` | src/modules/app/app.service.ts:14-70 | other content types fail and change nothing; an image upload returns the public URL, stores the normalised image at the origin address, adds or replaces only the origin and the metadata record, and keeps every other object |
| `App.FetchConvert` | src/modules/app/app.service.ts:105-169 | without a metadata record the answer is `null`; any answer carries the variant address and the mime type `image/<extension>` |
| `App.AppService.FetchConvertImage` | src/modules/app/app.service.ts:105-169 | the imperative fetch, reading metadata, then the variant, then maybe the origin, returns what `FetchConvert` specifies and writes nothing |
| `App.AppService.ConvertContent` | src/modules/app/app.service.ts:72-103 | the response and the store afterwards are those of `Convert` on the store before |
| `App.AppService.UploadContent` | src/modules/app/app.service.ts:14-29 | the URL and the store afterwards are those of `Upload` on the store before |
| `App.AppService.UploadImage` | src/modules/app/app.service.ts:56-70 | the normalised image is written at the lower-cased key's origin address; the returned path keeps the key's case |
| `App.AppService.InsertImageMetadata` | src/modules/app/app.service.ts:31-54 | a record holding the origin's read-back time is written at the metadata address, and nothing else changes |
| `AppProperties.OnlyImagesAccepted` | src/modules/app/app.service.ts:21-26 | upload and fetch of a content type other than Image fail with "in developing" and leave the store alone |
| `AppProperties.ConvertDecisionTable` | src/modules/app/app.service.ts:122-160 | for each case (no record, fresh cache, no origin, refused format, recompute) the answer and the store afterwards; only a recompute writes, once, to the variant address |
| `AppProperties.UndatedVariantAlwaysServed` | src/modules/app/app.service.ts:141-145 | a cached variant without Last-Modified is served as stored whenever a record exists |
| `AppProperties.ConvertIgnoresKeyCase` | src/modules/app/app.service.ts:222-230 | fetches under keys that lower-case alike have the same answer and the same effect |
| `AppProperties.SecondFetchHitsCache` | src/modules/app/app.service.ts:139-145 | after a successful fetch, repeating it returns the same bytes and writes nothing, unless the record is dated after the first fetch |
| `AppProperties.UploadStoresOriginAndRecord` | src/modules/app/app.service.ts:31-70 | an image upload writes the origin and a record that reads back as the upload time, and returns the public URL |
| `AppProperties.UploadInvalidatesOlderVariants` | src/modules/app/app.service.ts:139-160 | after an upload at time t, fetching a variant that is missing or older than t recomputes it from the new image, under any case of the key, and writes it back |
| `Filters.Detail` | src/filters/http-exception.filter.ts:37-43 | an HttpException's message, a thrown string itself, otherwise the object's non-empty message or `Unknown error`, so an object never gets an empty detail |
| `Filters.BaseRecord` | src/filters/http-exception.filter.ts:45-54 | the record carries the given status, the exception's code, title `error`, the detail and no source point; the stack is present only in development |
| `Filters.BuildErrorsAsWritten` | src/filters/http-exception.filter.ts:33-72 | the code as written fails exactly for a `null`/`undefined` exception |
| `Filters.HttpExceptionFilter.BuildErrors` | src/filters/http-exception.filter.ts:33-72 | a message array gives one record per message, in order, with that message as detail and source point and the response's status code; otherwise one record with the given status and detail; every record has title `error` and the exception's code; a stack appears only in development |
| `Filters.HttpExceptionFilter.Catch` | src/filters/http-exception.filter.ts:83-88 | the status is an HttpException's own status, else 422, and the records are those of `buildErrors` with that status |
| `Filters.HttpExceptionFilter.constructor` | src/filters/http-exception.filter.ts:30 | development mode is on exactly when the `env` setting is `development` |

## Left out

- HTTP transport. Riak is a map. A failed read is the same as an absent object. Writes never fail, so a failed POST, which would throw, is not modelled.
- Addresses are map keys compared as strings. The HTTP client drops everything from a `#` on, Riak reads a `?` as the start of a query, and Riak decodes percent-escapes in keys. So a key containing `#`, `?` or a percent-escape can make different address strings reach one Riak object. For example, the origin and the metadata record of a file named `a#1.png` both reach the key `a`, and the record overwrites the image. `Addressing.AddressesDistinct`, `Addressing.VariantAddressInjective`, `AppProperties.UploadStoresOriginAndRecord` and `AppProperties.UploadInvalidatesOlderVariants` hold for the address strings only, not for the Riak objects those strings reach.
- Reads of stored objects never fail. A GET of an object that is present always succeeds, so in `App.Upload` the read-back of the origin just written always gives its time, and the `Undefined` stamp of `MetadataRecord.Stamp` is never written by an upload. In the service, a failed read-back at app.service.ts:39 makes line 47 write `{}`. That record reads as the Invalid Date, and lines 143-144 then never recompute a dated variant. `AppProperties.UploadStoresOriginAndRecord`, `AppProperties.UploadInvalidatesOlderVariants` and `AppProperties.SecondFetchHitsCache` hold only under this assumption of reliable reads.
- The image library. `ImageCodec` supplies the detected format, the resize-and-encode step and the normalising re-encode of uploads, as uninterpreted functions. Their failures are not modelled: undecodable input, the aspect-ratio rules of resizing, and quality-range checks.
- Size checks of the image library. The library's `resize` refuses a width or height that is not a positive integer. `ImageFormat.ResizeOf` passes such a side through unchanged, for example `-5`, because `-5 || undefined` is `-5`. `ImageFormat.ConvertImage` then answers `Ok`. The service instead throws, so `convertContent` writes nothing and the filter answers 422. `AppProperties.ConvertDecisionTable` reports a recompute and a write for such a query.
- Dates. Last-Modified headers are integer times. The metadata record stores its time as an integer, not the ISO text of a JavaScript `Date`. `MetadataRecord.ReadText` accepts exactly the record forms the service writes. Other JSON bodies read as the Invalid Date, and the body `null` reads as no record.
- Case mapping. `Text.Lower` lower-cases ASCII letters only. Unicode case mapping is not modelled.
- Number rendering. Query numbers are integers. Fractional or non-finite numbers are not modelled. `Text.IntToString` writes every integer in plain decimal, while JavaScript writes integers of magnitude 10^21 or more in exponent form (`1e+21`). The query DTO used by the controller is not part of this model, so width, height and quality are taken to arrive as numbers.
- Unseen enums. The files defining `ContentType`, `ContentGroup` and `ContentFormat` are not part of this model. The image type is taken to render as `image`, the formats as `webp` and `avif`, and a content group is its string value.
- Concurrency. Two fetches may both recompute and write; each call here runs alone.
- Logging in the filter, and writing the HTTP response.
- The controller, decorators, interceptor, DTOs, module wiring and bootstrap.

## Findings

| source | as written | input that shows it | evidently intended | confidence | as-written member | corrected member |
|---|---|---|---|---|---|---|
| src/filters/http-exception.filter.ts:42-48 | line 42 guards `exception &&` against a nullish exception, but line 48 then reads `exception.code`, which throws a TypeError inside the filter | a handler that runs `throw null` (or `throw undefined`) | one record with status 422, detail `Unknown error`, no code | medium; not executed | `Filters.BuildErrorsAsWritten` | `Filters.HttpExceptionFilter.BuildErrors` |

/**
  * The JSON metadata record stored next to every origin image
  * (src/modules/app/app.service.ts, lines 31-54 and 203-220): `insertImageMetadata`
  * posts `{ lastModified: imageOrigin?.lastModified }` and
  * `fetchImageMetadataOrigin` reads it back as `new Date(res.data.lastModified)`.
  * Dates are written here as integer milliseconds; the ISO text JavaScript
  * produces for a `Date` is not modelled.
  */
module MetadataRecord {
  import opened Common
  import opened Text

  /** A JavaScript `Date`: a time in milliseconds, or the Invalid Date. */
  datatype JsDate = Valid(ms: int) | Invalid

  /**
    * The `lastModified` value placed in the record: `undefined` when the origin
    * could not be read back, `null` when it came without a Last-Modified
    * header, otherwise that header's time.
    */
  datatype Stamp = Undefined | Null | At(ms: int)

  /** What `new Date(…)` gives for the stamp after a JSON round trip. */
  function DateOf(s: Stamp): JsDate {
    match s
    case Undefined => Invalid
    case Null => Valid(0)
    case At(t) => Valid(t)
  }

  const KeyPrefix: string := "{\"lastModified\":"

  /** The JSON text of the record; `JSON.stringify` omits an `undefined` member. */
  function BodyText(s: Stamp): string {
    match s
    case Undefined => "{}"
    case Null => KeyPrefix + "null}"
    case At(t) => KeyPrefix + IntToString(t) + "}"
  }

  /** The bytes posted to the metadata address (lines 46-53): the JSON text of the record, one byte per character. */
  function Encode(s: Stamp): (r: Bytes)
    ensures FromBytes(r) == BodyText(s)
  {
    BodyTextIsNarrow(s);
    TextRoundTrip(BodyText(s));
    ToBytes(BodyText(s))
  }

  /**
    * Reading a record body: a body of `null` makes `res.data.lastModified`
    * throw, which the reader swallows into "no record"; a body carrying a
    * time gives that time; every other body has no `lastModified` member and
    * gives the Invalid Date.
    */
  function ReadText(text: string): (r: Option<JsDate>)
    ensures r.None? <==> text == "null"
    ensures text == "{}" ==> r == Some(Invalid)
    ensures r.Some? && r.value.Valid? ==>
      text == KeyPrefix + "null}" || text == KeyPrefix + IntToString(r.value.ms) + "}"
  {
    if text == "null" then None
    else if text == KeyPrefix + "null}" then Some(Valid(0))
    else if |text| > |KeyPrefix| + 1 && text[..|KeyPrefix|] == KeyPrefix && text[|text| - 1] == '}' then
      var digits := text[|KeyPrefix|..|text| - 1];
      match ParseInt(digits)
      case Some(t) =>
        if IntToString(t) == digits then
          assert text == KeyPrefix + digits + "}";
          Some(Valid(t))
        else Some(Invalid)
      case None => Some(Invalid)
    else Some(Invalid)
  }

  /** The record read from the bytes stored at the metadata address (lines 212-217); only the body `null` is no record. */
  function Decode(body: Bytes): (r: Option<JsDate>)
    ensures r.None? <==> FromBytes(body) == "null"
  {
    ReadText(FromBytes(body))
  }

  lemma BodyTextIsNarrow(s: Stamp)
    ensures IsNarrow(BodyText(s))
  {
  }

  /** A record the service writes reads back as the date `new Date` makes of its stamp. */
  lemma RoundTrip(s: Stamp)
    ensures Decode(Encode(s)) == Some(DateOf(s))
  {
    var text := BodyText(s);
    if s.At? {
      var digits := IntToString(s.ms);
      assert text == KeyPrefix + digits + "}";
      assert text[|KeyPrefix|] == digits[0] && digits[0] != 'n';
      assert (KeyPrefix + "null}")[|KeyPrefix|] == 'n';
      assert text != "null" by {
        assert |text| > 4;
      }
      assert text[..|KeyPrefix|] == KeyPrefix;
      assert text[|KeyPrefix|..|text| - 1] == digits;
      ParseIntRoundTrip(s.ms);
    } else if s.Undefined? {
      assert text == "{}";
    }
  }
}

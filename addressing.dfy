/**
  * The Riak addresses the service reads and writes, and the public URL it hands
  * back after an upload (src/modules/app/app.service.ts, lines 28, 69 and 222-251).
  * All of them are plain string templates over configuration values, the
  * content group and the client's key.
  */
module Addressing {
  import opened Common
  import opened Text

  /** The value of `ContentType.Image`, the only content type the service implements. */
  const ImageContentType: string := "image"

  /** The optional transformation parameters of a fetch request, as the controller passes them. */
  datatype Query = Query(
    width: Option<int>,
    height: Option<int>,
    quality: Option<int>,
    extension: Option<string>)

  /** The bucket part of every address of a content group: the Riak URL, then `image,<group>/`. */
  function Bucket(riakUrl: string, group: string): string {
    riakUrl + "/" + ImageContentType + "," + group + "/"
  }

  /**
    * The address of an origin image (app.service.ts, lines 222-230): the
    * bucket of its group followed by the key with each character
    * lower-cased, so the key part holds no capital letter.
    */
  function OriginAddress(riakUrl: string, group: string, key: string): (url: string)
    ensures var bucket := Bucket(riakUrl, group);
      && |url| == |bucket| + |key| && url[..|bucket|] == bucket
      && (forall i :: 0 <= i < |key| ==> url[|bucket| + i] == LowerChar(key[i]))
      && (forall i :: |bucket| <= i < |url| ==> !('A' <= url[i] <= 'Z'))
  {
    Bucket(riakUrl, group) + Lower(key)
  }

  /**
    * The address of the metadata record of an origin image (lines 232-237):
    * its origin address followed by `,metadata`, hence never the origin
    * address itself.
    */
  function MetadataAddress(riakUrl: string, group: string, key: string): (url: string)
    ensures var origin := OriginAddress(riakUrl, group, key);
      && |url| == |origin| + 9 && url[..|origin|] == origin && url[|origin|..] == ",metadata"
      && url != origin
  {
    OriginAddress(riakUrl, group, key) + ",metadata"
  }

  /**
    * How a numeric query parameter is interpolated (lines 248-250): empty
    * when absent, otherwise the decimal text, which reads back as the number
    * and holds no comma.
    */
  function FieldText(value: Option<int>): (s: string)
    ensures ',' !in s
    ensures value.None? <==> s == ""
    ensures value.Some? ==> ParseInt(s) == value
  {
    match value
    case None => ""
    case Some(n) => ParseIntRoundTrip(n); IntToString(n)
  }

  /** One `,name=value` parameter of a variant address. */
  function Param(name: string, value: string): string {
    "," + name + "=" + value
  }

  /**
    * The parameter list of a variant address (lines 248-250): `,w=…,h=…,q=…,ext=…`,
    * each absent parameter rendered as the empty string and the extension
    * rendered as given, without lower-casing.
    */
  function VariantSuffix(q: Query): (s: string)
    ensures |s| >= 14 + |q.extension.GetOr("")| && s[..3] == ",w="
    ensures s[|s| - |q.extension.GetOr("")|..] == q.extension.GetOr("")
  {
    var ext := q.extension.GetOr("");
    var head := Param("w", FieldText(q.width)) + (Param("h", FieldText(q.height)) + Param("q", FieldText(q.quality)));
    var s := Param("w", FieldText(q.width)) + (Param("h", FieldText(q.height)) + (Param("q", FieldText(q.quality))
      + Param("ext", ext)));
    assert s == head + ",ext=" + ext;
    assert s[..3] == head[..3] == ",w=";
    s
  }

  /**
    * The address of a cached variant (lines 239-251): the origin address
    * followed by the parameter list. It extends the origin address and
    * differs from both the origin and the metadata address.
    */
  function VariantAddress(riakUrl: string, group: string, key: string, q: Query): (url: string)
    ensures var origin := OriginAddress(riakUrl, group, key);
      && |url| > |origin| && url[..|origin|] == origin && url[|origin|..] == VariantSuffix(q)
      && url != origin && url != MetadataAddress(riakUrl, group, key)
  {
    var origin := OriginAddress(riakUrl, group, key);
    var url := origin + VariantSuffix(q);
    assert url[|origin| + 1] == 'w' && MetadataAddress(riakUrl, group, key)[|origin| + 1] == 'm';
    url
  }

  /** The path `uploadImage` returns (line 69): `/image/<group>/` and the file name as the client sent it. */
  function UploadPath(group: string, originalName: string): string {
    "/" + ImageContentType + "/" + group + "/" + originalName
  }

  /** The URL `uploadContent` returns: site URL, `/content`, then the upload path. */
  function PublicUrl(siteUrl: string, group: string, originalName: string): (url: string)
    ensures |url| >= |siteUrl| + |originalName| && url[..|siteUrl|] == siteUrl
    ensures url[|url| - |originalName|..] == originalName
  {
    siteUrl + "/content" + UploadPath(group, originalName)
  }

  /** Keys are compared case-insensitively: two keys share an origin address exactly when they lower-case alike. */
  lemma OriginAddressCaseInsensitive(riakUrl: string, group: string, k1: string, k2: string)
    ensures OriginAddress(riakUrl, group, k1) == OriginAddress(riakUrl, group, k2) <==> Lower(k1) == Lower(k2)
  {
    var prefix := Bucket(riakUrl, group);
    assert OriginAddress(riakUrl, group, k1) == prefix + Lower(k1);
    assert OriginAddress(riakUrl, group, k2) == prefix + Lower(k2);
    if prefix + Lower(k1) == prefix + Lower(k2) {
      assert Lower(k1) == (prefix + Lower(k1))[|prefix|..];
    }
  }

  /** A comma-free head followed by a comma-led tail is determined by the whole string. */
  lemma SplitAtComma(v1: string, r1: string, v2: string, r2: string)
    requires ',' !in v1 && ',' !in v2
    requires |r1| > 0 && r1[0] == ',' && |r2| > 0 && r2[0] == ','
    requires v1 + r1 == v2 + r2
    ensures v1 == v2 && r1 == r2
  {
    var s := v1 + r1;
    assert s[|v1|] == ',' && s[|v2|] == ',';
    if |v1| < |v2| {
      assert false;
    } else if |v2| < |v1| {
      assert false;
    }
    assert v1 == s[..|v1|] && v2 == s[..|v2|];
    assert r1 == s[|v1|..] && r2 == s[|v2|..];
  }

  /** Two equal parameter lists that start with the same parameter name agree on its value and on the rest. */
  lemma SplitParam(name: string, v1: string, r1: string, v2: string, r2: string)
    requires ',' !in v1 && ',' !in v2
    requires |r1| > 0 && r1[0] == ',' && |r2| > 0 && r2[0] == ','
    requires Param(name, v1) + r1 == Param(name, v2) + r2
    ensures v1 == v2 && r1 == r2
  {
    var tag := "," + name + "=";
    assert Param(name, v1) + r1 == tag + (v1 + r1);
    assert Param(name, v2) + r2 == tag + (v2 + r2);
    assert v1 + r1 == (tag + (v1 + r1))[|tag|..];
    assert v2 + r2 == (tag + (v2 + r2))[|tag|..];
    SplitAtComma(v1, r1, v2, r2);
  }

  lemma FieldTextInjective(u: Option<int>, v: Option<int>)
    ensures FieldText(u) == FieldText(v) <==> u == v
  {
    if FieldText(u) == FieldText(v) && u.Some? && v.Some? {
      IntToStringInjective(u.value, v.value);
    }
  }

  /** The parameter list determines width, height, quality and the rendered extension. */
  lemma VariantSuffixInjective(q1: Query, q2: Query)
    requires VariantSuffix(q1) == VariantSuffix(q2)
    ensures q1.width == q2.width && q1.height == q2.height && q1.quality == q2.quality
    ensures q1.extension.GetOr("") == q2.extension.GetOr("")
  {
    var e1, e2 := q1.extension.GetOr(""), q2.extension.GetOr("");
    var tail1 := Param("q", FieldText(q1.quality)) + Param("ext", e1);
    var tail2 := Param("q", FieldText(q2.quality)) + Param("ext", e2);
    var rest1 := Param("h", FieldText(q1.height)) + tail1;
    var rest2 := Param("h", FieldText(q2.height)) + tail2;
    SplitParam("w", FieldText(q1.width), rest1, FieldText(q2.width), rest2);
    FieldTextInjective(q1.width, q2.width);
    SplitParam("h", FieldText(q1.height), tail1, FieldText(q2.height), tail2);
    FieldTextInjective(q1.height, q2.height);
    SplitParam("q", FieldText(q1.quality), Param("ext", e1), FieldText(q2.quality), Param("ext", e2));
    FieldTextInjective(q1.quality, q2.quality);
    assert e1 == Param("ext", e1)[5..] && e2 == Param("ext", e2)[5..];
  }

  /**
    * Two requests for the same key share a variant address exactly when they
    * carry the same width, height and quality and render the same extension
    * (an absent extension and an empty one render alike).
    */
  lemma VariantAddressInjective(riakUrl: string, group: string, key: string, q1: Query, q2: Query)
    ensures VariantAddress(riakUrl, group, key, q1) == VariantAddress(riakUrl, group, key, q2) <==>
      (q1.width == q2.width && q1.height == q2.height && q1.quality == q2.quality
        && q1.extension.GetOr("") == q2.extension.GetOr(""))
  {
    var origin := OriginAddress(riakUrl, group, key);
    var s1, s2 := VariantSuffix(q1), VariantSuffix(q2);
    if origin + s1 == origin + s2 {
      assert s1 == (origin + s1)[|origin|..] && s2 == (origin + s2)[|origin|..];
      VariantSuffixInjective(q1, q2);
    }
  }

  /** For one key, the origin, its metadata record and any of its variants live at three different addresses. */
  lemma AddressesDistinct(riakUrl: string, group: string, key: string, q: Query)
    ensures OriginAddress(riakUrl, group, key) != MetadataAddress(riakUrl, group, key)
    ensures OriginAddress(riakUrl, group, key) != VariantAddress(riakUrl, group, key, q)
    ensures MetadataAddress(riakUrl, group, key) != VariantAddress(riakUrl, group, key, q)
  {
  }

  /** The origin address of the key `k + ",metadata"` is the metadata address of `k`. */
  lemma MetadataAddressIsAnOriginAddress(riakUrl: string, group: string, key: string)
    ensures OriginAddress(riakUrl, group, key + ",metadata") == MetadataAddress(riakUrl, group, key)
  {
  }
}

/**
 * The parser for Google's doodle response and the builder of the logo URL
 * that carries the cached logo's fingerprint.
 *
 * The JSON reader and the base64 decoder are not modelled: each is a
 * parameter that either yields a value or fails.
 */
module GoogleLogoApi {
  import opened Wrappers
  import opened Json

  newtype byte = x: int | 0 <= x < 256

  /** What a response may start with, to be ignored. */
  const ResponsePreamble: string := ")]}'"

  /** The longest a logo may be cached: 30 days, in milliseconds. */
  const MaxTimeToLiveMs: int := 30 * 24 * 60 * 60 * 1000

  const MicrosecondsPerMillisecond: int := 1000

  /** base::Time and base::TimeDelta, in microseconds. */
  type Time = int

  /** The metadata fields the parser fills in; the others keep their defaults. */
  datatype LogoMetadata = LogoMetadata(
    mimeType: string,
    onClickUrl: string,
    fingerprint: string,
    altText: string,
    canShowAfterExpiration: bool,
    expirationTime: Time)

  /** EncodedLogo: the still-encoded image, if the response carried one, and its metadata. */
  datatype EncodedLogo = EncodedLogo(encodedImage: Option<seq<byte>>, metadata: LogoMetadata)

  // ---------------------------------------------------------------- URL

  datatype QueryParameter = QueryParameter(name: string, value: string)

  /** A GURL, seen as the URL it was built from and the query parameters appended to it. */
  datatype Url = Url(spec: string, appended: seq<QueryParameter>)

  /** net::AppendQueryParameter: escaping and serialisation are not modelled. */
  function AppendQueryParameter(url: Url, name: string, value: string): Url {
    url.(appended := url.appended + [QueryParameter(name, value)])
  }

  const FingerprintPrefix: string := "es_dfp:"

  /** The logo URL with `async=es_dfp:<fingerprint>` appended. */
  function GoogleAppendFingerprintToLogoURL(logoUrl: Url, fingerprint: string): (r: Url)
    ensures r.spec == logoUrl.spec
    ensures |r.appended| == |logoUrl.appended| + 1
    ensures r.appended[..|logoUrl.appended|] == logoUrl.appended
    ensures r.appended[|logoUrl.appended|].name == "async"
    ensures r.appended[|logoUrl.appended|].value == "es_dfp:" + fingerprint
  {
    AppendQueryParameter(logoUrl, "async", FingerprintPrefix + fingerprint)
  }

  /** The fingerprint carried by the last appended parameter, if it is an `async` one. */
  function FingerprintOfLogoURL(url: Url): Option<string> {
    if url.appended == [] then None
    else
      var p := url.appended[|url.appended| - 1];
      if p.name == "async" && FingerprintPrefix <= p.value
      then Some(p.value[|FingerprintPrefix|..])
      else None
  }

  /** The fingerprint appended to a URL is read back unchanged. */
  lemma FingerprintRoundTrip(logoUrl: Url, fingerprint: string)
    ensures FingerprintOfLogoURL(GoogleAppendFingerprintToLogoURL(logoUrl, fingerprint)) == Some(fingerprint)
  {
  }

  // ---------------------------------------------------------------- parsing

  /** The response with a leading preamble, if there is one, removed; nothing else is removed. */
  function StripPreamble(response: string): (r: string)
    ensures ResponsePreamble <= response ==> ResponsePreamble + r == response
    ensures !(ResponsePreamble <= response) ==> r == response
  {
    if ResponsePreamble <= response then response[|ResponsePreamble|..] else response
  }

  /** Exactly one preamble is removed from a prefixed body, even one that starts with another. */
  lemma StripPreambleRoundTrip(body: string)
    ensures StripPreamble(ResponsePreamble + body) == body
  {
  }

  /** The `logo` dictionary inside the `update` dictionary inside a top-level dictionary. */
  function LogoDictionary(value: Value): (r: Option<Dictionary>)
    ensures r.Some? <==>
      && value.DictionaryValue?
      && GetDictionary(value.entries, "update").Some?
      && GetDictionary(GetDictionary(value.entries, "update").value, "logo").Some?
    ensures r.Some? ==> r.value == value.entries["update"].entries["logo"].entries
  {
    if !value.DictionaryValue? then None
    else
      match GetDictionary(value.entries, "update")
      case None => None
      case Some(update) => GetDictionary(update, "logo")
  }

  /**
   * The image rule: a `data` string must decode as base64 and must come with a
   * `mime_type` string. A missing or non-string `data` is allowed.
   */
  predicate ImageRuleHolds(logo: Dictionary, base64Decode: string -> Option<seq<byte>>) {
    var data := GetString(logo, "data");
    data.Some? ==> base64Decode(data.value).Some? && GetString(logo, "mime_type").Some?
  }

  /** The time to live in milliseconds, and whether the logo may be shown after it expires. */
  function TimeToLive(logo: Dictionary): (r: (int, bool))
    ensures r.0 <= MaxTimeToLiveMs
    ensures GetInteger(logo, "time_to_live").Some? ==>
      var ttl := GetInteger(logo, "time_to_live").value as int;
      && (r.0 == ttl || r.0 == MaxTimeToLiveMs) && r.0 <= ttl && !r.1
    ensures GetInteger(logo, "time_to_live").None? ==> r == (MaxTimeToLiveMs, true)
  {
    match GetInteger(logo, "time_to_live")
    case Some(ttl) => (if (ttl as int) < MaxTimeToLiveMs then ttl as int else MaxTimeToLiveMs, false)
    case None => (MaxTimeToLiveMs, true)
  }

  /** The logo built from a `logo` dictionary, or None when the image rule fails. */
  function ParseLogoDictionary(logo: Dictionary, responseTime: Time,
                               base64Decode: string -> Option<seq<byte>>): (r: Option<EncodedLogo>)
    ensures r.Some? <==> ImageRuleHolds(logo, base64Decode)
  {
    var data := GetString(logo, "data");
    if data.Some? && base64Decode(data.value).None? then None
    else if data.Some? && GetString(logo, "mime_type").None? then None
    else
      var ttl := TimeToLive(logo);
      Some(EncodedLogo(
        if data.Some? then base64Decode(data.value) else None,
        LogoMetadata(
          mimeType := if data.Some? then GetString(logo, "mime_type").value else "",
          onClickUrl := GetString(logo, "target").GetOr(""),
          fingerprint := GetString(logo, "fingerprint").GetOr(""),
          altText := GetString(logo, "alt").GetOr(""),
          canShowAfterExpiration := ttl.1,
          expirationTime := responseTime + ttl.0 * MicrosecondsPerMillisecond)))
  }

  /** The `logo` dictionary a response leads to, if it is valid JSON of the right shape. */
  function ResponseLogoDictionary(response: string, jsonRead: string -> Option<Value>): (r: Option<Dictionary>)
    ensures r.Some? <==>
      jsonRead(StripPreamble(response)).Some? && LogoDictionary(jsonRead(StripPreamble(response)).value).Some?
    ensures r.Some? ==>
      var top := jsonRead(StripPreamble(response)).value;
      && top.DictionaryValue? && "update" in top.entries
      && top.entries["update"].DictionaryValue? && "logo" in top.entries["update"].entries
      && top.entries["update"].entries["logo"].DictionaryValue?
      && r.value == top.entries["update"].entries["logo"].entries
  {
    match jsonRead(StripPreamble(response))
    case None => None
    case Some(value) => LogoDictionary(value)
  }

  /**
   * GoogleParseLogoResponse: the logo carried by a response received at
   * `responseTime`, or None when the response is rejected.
   */
  function GoogleParseLogoResponse(response: string, responseTime: Time,
                                   jsonRead: string -> Option<Value>,
                                   base64Decode: string -> Option<seq<byte>>): (r: Option<EncodedLogo>)
    ensures r.Some? <==>
      && jsonRead(StripPreamble(response)).Some?
      && LogoDictionary(jsonRead(StripPreamble(response)).value).Some?
      && ImageRuleHolds(LogoDictionary(jsonRead(StripPreamble(response)).value).value, base64Decode)
  {
    match ResponseLogoDictionary(response, jsonRead)
    case None => None
    case Some(logo) => ParseLogoDictionary(logo, responseTime, base64Decode)
  }

  // ---------------------------------------------------------------- properties

  function Min(a: int, b: int): int {
    if a < b then a else b
  }

  /**
   * Every rejection path: invalid JSON, a top level that is not a dictionary,
   * a missing `update` or `logo` dictionary, undecodable `data`, and `data`
   * without `mime_type`.
   */
  lemma ParseRejects(response: string, responseTime: Time,
                     jsonRead: string -> Option<Value>, base64Decode: string -> Option<seq<byte>>)
    ensures var value := jsonRead(StripPreamble(response));
      var r := GoogleParseLogoResponse(response, responseTime, jsonRead, base64Decode);
      && (value.None? ==> r.None?)
      && (value.Some? && !value.value.DictionaryValue? ==> r.None?)
      && (value.Some? && value.value.DictionaryValue? && GetDictionary(value.value.entries, "update").None? ==>
            r.None?)
      && (value.Some? && value.value.DictionaryValue? && GetDictionary(value.value.entries, "update").Some? ==>
            GetDictionary(GetDictionary(value.value.entries, "update").value, "logo").None? ==> r.None?)
  {
  }

  /** With the nested dictionaries in place, the image rule alone decides. */
  lemma ParseImageRule(response: string, responseTime: Time,
                       jsonRead: string -> Option<Value>, base64Decode: string -> Option<seq<byte>>)
    requires ResponseLogoDictionary(response, jsonRead).Some?
    ensures var logo := ResponseLogoDictionary(response, jsonRead).value;
      var r := GoogleParseLogoResponse(response, responseTime, jsonRead, base64Decode);
      var data := GetString(logo, "data");
      && (data.Some? && base64Decode(data.value).None? ==> r.None?)
      && (data.Some? && GetString(logo, "mime_type").None? ==> r.None?)
      && (data.Some? && base64Decode(data.value).Some? && GetString(logo, "mime_type").Some? ==>
            && r.Some?
            && r.value.encodedImage == base64Decode(data.value)
            && r.value.metadata.mimeType == GetString(logo, "mime_type").value)
      && (data.None? ==> r.Some? && r.value.encodedImage.None? && r.value.metadata.mimeType == "")
  {
  }

  /** `target`, `fingerprint` and `alt` are copied when present, left empty otherwise, and never cause a rejection. */
  lemma OptionalFieldsNeverReject(logo: Dictionary, responseTime: Time, base64Decode: string -> Option<seq<byte>>)
    ensures var r := ParseLogoDictionary(logo, responseTime, base64Decode);
      && ParseLogoDictionary(logo - {"target", "fingerprint", "alt"}, responseTime, base64Decode).Some? == r.Some?
      && (r.Some? ==>
            && r.value.metadata.onClickUrl == GetString(logo, "target").GetOr("")
            && r.value.metadata.fingerprint == GetString(logo, "fingerprint").GetOr("")
            && r.value.metadata.altText == GetString(logo, "alt").GetOr(""))
  {
  }

  /**
   * The time to live is min(time_to_live, MaxTimeToLiveMs) and the logo may not
   * be shown after expiry when the response names one; otherwise it is
   * MaxTimeToLiveMs and the logo may be shown after expiry. The expiration
   * time is the response time plus the time to live, so never later than the
   * response time plus MaxTimeToLiveMs.
   */
  lemma ParseTimeToLive(response: string, responseTime: Time,
                        jsonRead: string -> Option<Value>, base64Decode: string -> Option<seq<byte>>)
    requires GoogleParseLogoResponse(response, responseTime, jsonRead, base64Decode).Some?
    ensures var logo := ResponseLogoDictionary(response, jsonRead).value;
      var m := GoogleParseLogoResponse(response, responseTime, jsonRead, base64Decode).value.metadata;
      var ttl := GetInteger(logo, "time_to_live");
      && (ttl.Some? ==>
            && m.expirationTime == responseTime + Min(ttl.value as int, MaxTimeToLiveMs) * MicrosecondsPerMillisecond
            && !m.canShowAfterExpiration)
      && (ttl.None? ==>
            && m.expirationTime == responseTime + MaxTimeToLiveMs * MicrosecondsPerMillisecond
            && m.canShowAfterExpiration)
      && m.expirationTime <= responseTime + MaxTimeToLiveMs * MicrosecondsPerMillisecond
  {
  }

  /**
   * The clamp never takes effect: `time_to_live` is read as an `int`, and every
   * `int` is below MaxTimeToLiveMs, so the time to live is the given value.
   */
  lemma TimeToLiveNeverClamped(logo: Dictionary)
    requires GetInteger(logo, "time_to_live").Some?
    ensures TimeToLive(logo).0 == GetInteger(logo, "time_to_live").value as int < MaxTimeToLiveMs
  {
  }

  /** A time_to_live that is not an `int` (too large, fractional, a string) counts as absent. */
  lemma NonIntegerTimeToLiveIgnored(logo: Dictionary, v: Value)
    requires !v.IntegerValue?
    ensures TimeToLive(logo["time_to_live" := v]) == (MaxTimeToLiveMs, true)
  {
  }

  /** A body that does not itself start with the preamble parses the same with or without one preamble in front. */
  lemma ParseIgnoresPreamble(body: string, responseTime: Time,
                             jsonRead: string -> Option<Value>, base64Decode: string -> Option<seq<byte>>)
    requires !(ResponsePreamble <= body)
    ensures GoogleParseLogoResponse(ResponsePreamble + body, responseTime, jsonRead, base64Decode)
            == GoogleParseLogoResponse(body, responseTime, jsonRead, base64Decode)
  {
  }
}

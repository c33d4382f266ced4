/** Tenant configuration taken from the `x-edgee-component-settings` request
    header (`Settings::new` and `Settings::from_req`). Decoding the header's
    JSON into a string-to-string map is a parameter: it fails, with the
    decoder's own message, on text that is not a JSON object whose every field
    is a string. */
module Config {
  import opened Types
  import opened Headers
  import Format

  /** The parsed settings. Either string may be empty: nothing checks that. */
  datatype Settings = Settings(apiKey: string, templateId: string)

  const SettingsHeader := "x-edgee-component-settings"
  const MissingHeader := "Missing 'x-edgee-component-settings' header"
  const CountPrefix := "Expected exactly one 'x-edgee-component-settings' header, found "
  const MissingApiKey := "Missing 'api_key' in settings"
  const MissingTemplateId := "Missing 'template_id' in settings"

  /** The message for a settings header that does not hold exactly one value. */
  function CountError(found: nat): string
  {
    CountPrefix + Format.Decimal(found)
  }

  /** `Settings::new`: look the header up by exact name, demand one value,
      decode it, then take `api_key` and then `template_id`. */
  function NewSettings(headers: HeaderMap, parse: string -> Result<map<string, string>>): (r: Result<Settings>)
    ensures SettingsHeader !in headers ==> r == Err(MissingHeader)
    ensures SettingsHeader in headers && |headers[SettingsHeader]| != 1 ==>
              r == Err(CountError(|headers[SettingsHeader]|))
    ensures r.Ok? <==>
              && SettingsHeader in headers && |headers[SettingsHeader]| == 1
              && parse(headers[SettingsHeader][0]).Ok?
              && "api_key" in parse(headers[SettingsHeader][0]).value
              && "template_id" in parse(headers[SettingsHeader][0]).value
    ensures r.Ok? ==>
              var fields := parse(headers[SettingsHeader][0]).value;
              r.value == Settings(fields["api_key"], fields["template_id"])
  {
    if SettingsHeader !in headers then Err(MissingHeader)
    else
      var values := headers[SettingsHeader];
      if |values| != 1 then Err(CountError(|values|))
      else
        match parse(values[0])
        case Err(e) => Err(e)
        case Ok(fields) =>
          if "api_key" !in fields then Err(MissingApiKey)
          else if "template_id" !in fields then Err(MissingTemplateId)
          else Ok(Settings(fields["api_key"], fields["template_id"]))
  }

  /** Once the single value is decoded, the decoder's error passes through
      unchanged and a missing `api_key` is reported before a missing
      `template_id`. */
  lemma FieldErrors(headers: HeaderMap, parse: string -> Result<map<string, string>>)
    requires SettingsHeader in headers && |headers[SettingsHeader]| == 1
    ensures parse(headers[SettingsHeader][0]).Err? ==>
              NewSettings(headers, parse) == Err(parse(headers[SettingsHeader][0]).error)
    ensures parse(headers[SettingsHeader][0]).Ok? && "api_key" !in parse(headers[SettingsHeader][0]).value ==>
              NewSettings(headers, parse) == Err(MissingApiKey)
    ensures parse(headers[SettingsHeader][0]).Ok? && "api_key" in parse(headers[SettingsHeader][0]).value
            && "template_id" !in parse(headers[SettingsHeader][0]).value ==>
              NewSettings(headers, parse) == Err(MissingTemplateId)
  {
  }

  /** Only the settings header matters: maps that agree on it give the same result. */
  lemma OtherHeadersIgnored(h1: HeaderMap, h2: HeaderMap, parse: string -> Result<map<string, string>>)
    requires SettingsHeader in h1 <==> SettingsHeader in h2
    requires SettingsHeader in h1 ==> h1[SettingsHeader] == h2[SettingsHeader]
    ensures NewSettings(h1, parse) == NewSettings(h2, parse)
  {
  }

  /** Distinct counts of settings values give distinct messages. */
  lemma CountErrorReportsCount(m: nat, n: nat)
    requires CountError(m) == CountError(n)
    ensures m == n
  {
    assert Format.Decimal(m) == CountError(m)[|CountPrefix|..];
    assert Format.Decimal(n) == CountError(n)[|CountPrefix|..];
    Format.DecimalInjective(m, n);
  }

  /** `Settings::from_req`: fold the request's header entries, then validate.
      Counted over the raw entries: none is a missing header, two or more are
      refused with their count, and success needs exactly one. */
  function FromReq(entries: seq<RawHeader>, decode: Bytes -> string,
                   parse: string -> Result<map<string, string>>): (r: Result<Settings>)
    ensures Occurrences(entries, SettingsHeader) == 0 ==> r == Err(MissingHeader)
    ensures Occurrences(entries, SettingsHeader) >= 2 ==>
              r == Err(CountError(Occurrences(entries, SettingsHeader)))
    ensures r.Ok? ==> Occurrences(entries, SettingsHeader) == 1
  {
    ValuesOfLength(entries, SettingsHeader, decode);
    OccurrencesNames(entries, SettingsHeader);
    NewSettings(ParseHeaders(entries, decode), parse)
  }

  /** A single settings entry is decoded and validated on its own. */
  lemma FromReqSingle(entries: seq<RawHeader>, i: nat, decode: Bytes -> string,
                      parse: string -> Result<map<string, string>>)
    requires i < |entries| && entries[i].name == SettingsHeader
    requires Occurrences(entries, SettingsHeader) == 1
    ensures FromReq(entries, decode, parse) == NewSettings(map[SettingsHeader := [decode(entries[i].value)]], parse)
  {
    assert SettingsHeader in Names(entries);
    ValuesOfSingle(entries, i, decode);
  }

  /** The well-formed case: the two strings come back exactly. */
  lemma SettingsFromValidHeader(value: string, parse: string -> Result<map<string, string>>,
                                apiKey: string, templateId: string)
    requires parse(value) == Ok(map["api_key" := apiKey, "template_id" := templateId])
    ensures NewSettings(map[SettingsHeader := [value]], parse) == Ok(Settings(apiKey, templateId))
  {
  }
}

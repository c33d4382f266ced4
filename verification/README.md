# Request normalisation of the pdforge WASI HTTP adapter, in Dafny

This project models the core of an edge component that serves one HTTP
endpoint. The component reads per-tenant settings (an API key and a template
id) from the `x-edgee-component-settings` request header. It reads and
JSON-decodes the POST body and forwards it to the pdforge PDF API. It then
relays that API's JSON answer, or a JSON error response, back to the caller.

Every part is a pure function over immutable values. The one loop, the body
reader, is a method with loop invariants.

- `types.dfy` (`Types`): bytes, `u16` status codes, `Option`, and a `Result`
  whose error is a message string. In the source, errors are message strings:
  `anyhow` errors, and plain `String`s from `parse_body`.
- `format.dfy` (`Format`): the decimal rendering of a count used in one
  error message.
- `headers.dfy` (`Headers`): `parse_headers` folds the inbound header
  entries into a name → values map.
- `body.dfy` (`Body`): `parse_body` reads the body stream into one buffer.
- `response.dfy` (`Response`): `ResponseBuilder`, its setters, the
  `build_response*` constructors, and `send` as a trace of transport calls.
- `settings.dfy` (`Config`): `Settings::new` and `Settings::from_req`.
- `handler.dfy` (`Handler`): `extract_request_body` and the decision logic
  of `Guest::handle`.

Some collaborators are passed in as functions, collected in `Handler.Env`:
- the JSON decoders and the encoder (`serde_json`);
- the lossy UTF-8 decoder (`String::from_utf8_lossy`);
- the upstream POST.

Nothing is claimed about their behaviour. A decoded JSON value is the type
parameter `J`. The body stream is the finite sequence of results its `read`
calls return. Once that sequence runs out, the stream counts as `Closed`.
`Handle` returns two things:
- the effects that happen before the response is built (reading the body,
  calling upstream);
- the response.

`Response.Send` turns a response into the transport calls made to deliver it.

Behaviours of the code that the model keeps as they are:
- the code looks the settings header up by exact name, with no case folding;
- settings errors are plain messages, not separate error kinds, and
  `Guest::handle` discards them;
- nothing checks that `api_key` or `template_id` is non-empty;
- a read or JSON failure of the request body is reported with the prefix
  "Failed to read request body: " or "Failed to parse JSON body: ";
- the request JSON is handed upstream together with the template id and the
  API key. No `{"templateId", "data"}` wrapping is modelled, because
  src/pdforge_payload.rs sends the request JSON as it is.

## Model

| member | source | states |
|---|---|---|
| Headers.ParseHeaders | src/helpers.rs:63-75 | the keys are exactly the names among the entries; each name maps to the decoded values of the entries with that name, in arrival order; no list is empty |
| Headers.ParseHeadersKeepsEveryValue | src/helpers.rs:63-75 | the lengths of all value lists add up to the number of entries, so no value is dropped |
| Headers.ValuesOfLength | src/helpers.rs:65-72 | a name gets one value per entry carrying it |
| Headers.ValuesOfSingle | src/helpers.rs:65-72 | a name carried by exactly one entry gets exactly that entry's decoded value |
| Body.StopIndex | src/helpers.rs:92-108 | the loop stops at the first read that is not a non-empty chunk (empty chunk, `Closed` or another error), or at the end of the stream |
| Body.ParseBody | src/helpers.rs:77-110 | the read loop: a failing `consume()` or `stream()` gives its fixed message; otherwise success is the in-order concatenation of the chunks before the stop; it takes exactly the reads up to and including the stop |
| Body.ReadBodyIgnoresRest | src/helpers.rs:92-103 | whatever follows the terminating read changes neither the outcome nor the number of reads taken |
| Body.ReadBodyFailsAtError | src/helpers.rs:104-106 | a stream error other than `Closed` reached before any stop fails the whole read with "Failed to read from request stream: " and its detail; no partial buffer is returned |
| Response.New | src/helpers.rs:16-29 | a new or default builder has status 200, no body and no headers |
| Response.SetHeader | src/helpers.rs:31-36 | after `set_header` the key holds exactly the one new value; every other header, the status and the body are unchanged |
| Response.SetStatusCode | src/helpers.rs:38-41 | only the status changes, to the given code |
| Response.SetBody | src/helpers.rs:43-46 | only the body changes, to `Some(body)` |
| Response.SetHeaderLastWins | src/helpers.rs:31-36 | setting a header twice leaves only the second value and leaves other headers as they were |
| Response.BuildResponse | src/helpers.rs:112-119 | the given status, body `Some(body)`, one `content-type` header with the given type and no other header |
| Response.BuildResponseHtml | src/helpers.rs:121-124 | as `build_response`, with content type `text/html; charset=utf-8` |
| Response.BuildResponseJson | src/helpers.rs:126-129 | as `build_response`, with content type `application/json` |
| Response.BuildResponseJsonError | src/helpers.rs:131-135 | a JSON response with the given status whose body yields the message back when the fixed `{"error": "` and `"}` are removed |
| Response.ErrorMessageRoundTrip | src/helpers.rs:133 | the message is placed verbatim between the fixed opening and closing text |
| Response.TemplateQuoteIsFirst | src/helpers.rs:133 | because nothing is escaped, the first raw `"` after the opening quote of the `"error"` value is the closing quote the template adds if and only if the message holds no `"` (backslashes and control characters are further hazards, not covered) |
| Response.Send | src/helpers.rs:48-60 | the response is created with the builder's headers, then the status is set, then it is committed to the out-parameter exactly once; the body is written at most once, if and only if there is one, and only that content; there are four calls without a body and five with one, so nothing else happens; the stream is finished exactly once, as the last call |
| Format.Decimal | src/lib.rs:109-110 | the count is rendered as decimal digits only, with no leading zero except for 0 itself |
| Format.DecimalRoundTrip | src/lib.rs:107-111 | the count shown in the "found N" message reads back as the count itself |
| Config.NewSettings | src/lib.rs:102-130 | missing header gives "Missing 'x-edgee-component-settings' header"; a value count other than 1 gives "Expected exactly one ..., found N"; success holds exactly when there is one value, it decodes, and both `api_key` and `template_id` are present, and then it carries exactly those two strings |
| Config.FieldErrors | src/lib.rs:113-124 | the decoder's error passes through; a missing `api_key` is reported before a missing `template_id` |
| Config.OtherHeadersIgnored | src/lib.rs:103-105 | two header maps that agree on the settings header give the same result |
| Config.CountErrorReportsCount | src/lib.rs:107-111 | different value counts give different messages |
| Config.FromReq | src/lib.rs:97-100 | counted over the raw header entries: no settings entry gives the missing-header error; two or more are refused with the count error, whatever their values; success needs exactly one |
| Config.FromReqSingle | src/lib.rs:97-114 | with exactly one entry of the settings header, the outcome is that of its decoded value alone |
| Config.SettingsFromValidHeader | src/lib.rs:137-148 | one value decoding to `api_key` and `template_id` gives back exactly those two strings |
| Handler.ExtractRequestBody | src/lib.rs:69-88 | a method other than POST gives "Unsupported method"; for POST, success holds exactly when the body reads and decodes, and yields the decoded value; a read failure and a decode failure each give their fixed prefix followed by the underlying message |
| Handler.NonPostIgnoresBody | src/lib.rs:70-86 | for a method other than POST, the outcome is the same whatever the body |
| Handler.Relay | src/lib.rs:42-60 | an upstream body (empty when absent) that does not decode gives 500 "Failed to parse Pdforge response"; otherwise the response has the upstream status and the re-encoded JSON; either way the content type is `application/json` |
| Handler.Respond | src/lib.rs:15-66 | a settings failure gives 500 with the fixed settings message and no effect; a body failure gives 400 with its message and no upstream call; there are at most two effects; the body is read if and only if the method is POST and the settings are good, and the read comes first; when settings and body are good the last effect is the upstream call; upstream is called only with the decoded body and the settings' template id and API key; an upstream error gives 500 with its message, and an answer is relayed; every response is JSON with a body |
| Handler.Handle | src/lib.rs:15-66 | every response is JSON with a body; there are at most two effects; bad settings give 500 with the fixed settings message and no effect; good settings with a method other than POST give 400 "Unsupported method" and no effect; the rest of the contract is that of `Respond`, which `Handle` calls on the outcomes of `from_req` and `extract_request_body` |
| Handler.NonPostNeverReads | src/lib.rs:28-35 | for a method other than POST the handler neither reads the body nor calls upstream, and answers 400 or 500 |
| Handler.SettingsFailureIgnoresRest | src/lib.rs:16-26 | when the settings fail, the response does not depend on the method, the body or the upstream |
| Handler.NonPostIndependent | src/lib.rs:28-35 | for a method other than POST, the response is the same for any body and any upstream behaviour |
| Handler.RespondsExactlyOnce | src/lib.rs:15-66 | on every path exactly one response is committed, a body is written, and the body stream is finished exactly once as the last call |

## Left out

- The outbound payload (src/pdforge_payload.rs) is not modelled. That file is a wrapper over the `waki` HTTP client. Its constructor takes one argument while the handler passes two. The upstream POST is therefore a parameter that receives the request JSON, the template id and the API key. Nothing is claimed about how they are encoded on the wire.
- The generic `run` helper (src/helpers/mod.rs) is not modelled. It relies on modules that are not part of this model, and the crate never declares the `bindings` path it imports.
- JSON parsing and serialisation are parameters. No round-trip is claimed, and in particular not that re-serialising the upstream JSON reproduces its text.
- `String::from_utf8_lossy` is a parameter. Nothing is claimed about replacement characters.
- WASI resources (`Fields`, `OutgoingResponse`, `OutgoingBody`, streams, `ResponseOutparam`) appear only as the `Send` trace and the read-result sequence. The 4096-byte read size is a transport detail and is left out.
- Response.SetHeader: assumes the host accepts the header. The source discards the result of `Fields::set`. Names are compared exactly, not case-insensitively. The value is kept as text, not as its bytes.
- Response.Send: does not model the host refusing a status code, or a failed or partial `write`. The source ignores both results. Calling `send` twice cannot happen, because it consumes the builder.
- Body.ParseBody: the stream is a finite sequence, and running out of it counts as `Closed`. A stream that never ends is not modelled.
- Handler.Relay: an unreadable upstream body is modelled as absent and read as empty, as `unwrap_or_default` does.
- Handler.ExtractRequestBody: `Method::Other("POST")` counts as a method other than POST, as in the source's match on the enum variant.
- Response.TemplateQuoteIsFirst: locates raw `"` characters only. No JSON string scanner is modelled, so where a message with a backslash or a control character makes the error body's string end, or whether it stays valid JSON, is not stated.

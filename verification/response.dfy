/** The outbound response: the `ResponseBuilder` record, its setters, the
    three `build_response*` constructors, and `send` as the sequence of
    transport calls it makes. */
module Response {
  import opened Types

  /** One outbound header field. The value is kept as the text handed to
      `set_header`; its byte encoding is a transport detail. */
  datatype Field = Field(name: string, value: string)

  datatype ResponseBuilder = ResponseBuilder(headers: seq<Field>, statusCode: u16, bodyContent: Option<string>)

  /** The values recorded for `name`, in order. */
  function Lookup(fields: seq<Field>, name: string): seq<string>
  {
    if |fields| == 0 then []
    else (if fields[0].name == name then [fields[0].value] else []) + Lookup(fields[1..], name)
  }

  /** `fields` without any entry named `name`. */
  function Without(fields: seq<Field>, name: string): seq<Field>
  {
    if |fields| == 0 then []
    else (if fields[0].name == name then [] else [fields[0]]) + Without(fields[1..], name)
  }

  lemma {:induction false} LookupAppend(a: seq<Field>, b: seq<Field>, name: string)
    ensures Lookup(a + b, name) == Lookup(a, name) + Lookup(b, name)
    decreases |a|
  {
    if |a| == 0 {
      assert a + b == b;
    } else {
      assert (a + b)[1..] == a[1..] + b;
      LookupAppend(a[1..], b, name);
    }
  }

  /** Removing a name clears its values and keeps every other name's values. */
  lemma {:induction false} LookupWithout(fields: seq<Field>, removed: string, name: string)
    ensures Lookup(Without(fields, removed), name) == if name == removed then [] else Lookup(fields, name)
    decreases |fields|
  {
    if |fields| > 0 {
      var head := if fields[0].name == removed then [] else [fields[0]];
      LookupAppend(head, Without(fields[1..], removed), name);
      LookupWithout(fields[1..], removed, name);
      if head != [] {
        assert Lookup(head, name) == (if fields[0].name == name then [fields[0].value] else []) + Lookup([], name);
      }
    }
  }

  /** `ResponseBuilder::new` (and `Default`): no headers, status 200, no body. */
  function New(): (b: ResponseBuilder)
    ensures b.statusCode == 200 && b.bodyContent.None?
    ensures forall name :: Lookup(b.headers, name) == []
  {
    ResponseBuilder([], 200, None)
  }

  /** `set_header`: `Fields::set` replaces every value of `key` by `value`. */
  function SetHeader(b: ResponseBuilder, key: string, value: string): (r: ResponseBuilder)
    ensures Lookup(r.headers, key) == [value]
    ensures forall name :: name != key ==> Lookup(r.headers, name) == Lookup(b.headers, name)
    ensures r.statusCode == b.statusCode && r.bodyContent == b.bodyContent
  {
    var headers := Without(b.headers, key) + [Field(key, value)];
    assert forall name :: Lookup(headers, name) == if name == key then [value] else Lookup(b.headers, name) by {
      forall name ensures Lookup(headers, name) == if name == key then [value] else Lookup(b.headers, name) {
        LookupAppend(Without(b.headers, key), [Field(key, value)], name);
        LookupWithout(b.headers, key, name);
        assert Lookup([Field(key, value)], name) == (if key == name then [value] else []) + Lookup([], name);
      }
    }
    b.(headers := headers)
  }

  /** `set_status_code`: only the status changes. */
  function SetStatusCode(b: ResponseBuilder, statusCode: u16): (r: ResponseBuilder)
    ensures r.statusCode == statusCode
    ensures r.headers == b.headers && r.bodyContent == b.bodyContent
  {
    b.(statusCode := statusCode)
  }

  /** `set_body`: only the body changes, and it becomes present. */
  function SetBody(b: ResponseBuilder, body: string): (r: ResponseBuilder)
    ensures r.bodyContent == Some(body)
    ensures r.headers == b.headers && r.statusCode == b.statusCode
  {
    b.(bodyContent := Some(body))
  }

  /** Setting the status twice keeps only the last value. */
  lemma SetStatusCodeLastWins(b: ResponseBuilder, first: u16, second: u16)
    ensures SetStatusCode(SetStatusCode(b, first), second) == SetStatusCode(b, second)
  {
  }

  /** Setters of different fields commute. */
  lemma SettersCommute(b: ResponseBuilder, statusCode: u16, body: string, key: string, value: string)
    ensures SetBody(SetStatusCode(b, statusCode), body) == SetStatusCode(SetBody(b, body), statusCode)
    ensures SetHeader(SetStatusCode(b, statusCode), key, value) == SetStatusCode(SetHeader(b, key, value), statusCode)
    ensures SetHeader(SetBody(b, body), key, value) == SetBody(SetHeader(b, key, value), body)
  {
  }

  /** Setting one header twice keeps only the last value. */
  lemma SetHeaderLastWins(b: ResponseBuilder, key: string, first: string, second: string)
    ensures Lookup(SetHeader(SetHeader(b, key, first), key, second).headers, key) == [second]
    ensures forall name :: name != key ==>
              Lookup(SetHeader(SetHeader(b, key, first), key, second).headers, name) == Lookup(b.headers, name)
  {
  }

  const ContentType := "content-type"
  const Json := "application/json"
  const Html := "text/html; charset=utf-8"

  /** `build_response`: a fresh builder with one content type, the status and the body. */
  function BuildResponse(body: string, statusCode: u16, contentType: string): (r: ResponseBuilder)
    ensures r.statusCode == statusCode && r.bodyContent == Some(body)
    ensures Lookup(r.headers, ContentType) == [contentType]
    ensures forall name :: name != ContentType ==> Lookup(r.headers, name) == []
  {
    SetBody(SetStatusCode(SetHeader(New(), ContentType, contentType), statusCode), body)
  }

  /** `build_response_html`. */
  function BuildResponseHtml(body: string, statusCode: u16): (r: ResponseBuilder)
    ensures r.statusCode == statusCode && r.bodyContent == Some(body)
    ensures Lookup(r.headers, ContentType) == [Html]
    ensures forall name :: name != ContentType ==> Lookup(r.headers, name) == []
  {
    BuildResponse(body, statusCode, Html)
  }

  /** `build_response_json`. */
  function BuildResponseJson(body: string, statusCode: u16): (r: ResponseBuilder)
    ensures r.statusCode == statusCode && r.bodyContent == Some(body)
    ensures Lookup(r.headers, ContentType) == [Json]
    ensures forall name :: name != ContentType ==> Lookup(r.headers, name) == []
  {
    BuildResponse(body, statusCode, Json)
  }

  const ErrorPrefix := "{\"error\": \""
  const ErrorSuffix := "\"}"

  /** The error body: the message placed between fixed text, unescaped. */
  function ErrorBody(message: string): string
  {
    ErrorPrefix + message + ErrorSuffix
  }

  /** Reads the message back out of an error body by dropping the fixed text. */
  function ErrorMessage(body: string): Option<string>
  {
    if |body| >= |ErrorPrefix| + |ErrorSuffix|
       && body[..|ErrorPrefix|] == ErrorPrefix
       && body[|body| - |ErrorSuffix|..] == ErrorSuffix
    then Some(body[|ErrorPrefix|..|body| - |ErrorSuffix|])
    else None
  }

  /** `build_response_json_error`: a JSON response whose body carries `message`. */
  function BuildResponseJsonError(message: string, statusCode: u16): (r: ResponseBuilder)
    ensures r.statusCode == statusCode
    ensures r.bodyContent.Some? && ErrorMessage(r.bodyContent.value) == Some(message)
    ensures Lookup(r.headers, ContentType) == [Json]
  {
    ErrorMessageRoundTrip(message);
    BuildResponseJson(ErrorBody(message), statusCode)
  }

  /** Every message survives the template: dropping the fixed text gives it back. */
  lemma ErrorMessageRoundTrip(message: string)
    ensures ErrorMessage(ErrorBody(message)) == Some(message)
  {
    var body := ErrorBody(message);
    assert body[..|ErrorPrefix|] == ErrorPrefix;
    assert body[|body| - |ErrorSuffix|..] == ErrorSuffix;
    assert body[|ErrorPrefix|..|body| - |ErrorSuffix|] == message;
  }

  /** Position of the first `c` in `s` at or after `from`, or `|s|` if none. */
  function IndexOf(s: string, c: char, from: nat): (k: nat)
    requires from <= |s|
    ensures from <= k <= |s|
    ensures forall i :: from <= i < k ==> s[i] != c
    ensures k < |s| ==> s[k] == c
    decreases |s| - from
  {
    if from == |s| || s[from] == c then from else IndexOf(s, c, from + 1)
  }

  /** The quoting hazard of the template: the first double quote after the
      opening quote of the `"error"` value is the one the template adds if
      and only if the message holds no double quote. This locates raw quote
      characters only; a backslash or a control character in the message is
      a further hazard that this lemma does not cover. */
  lemma TemplateQuoteIsFirst(message: string)
    ensures IndexOf(ErrorBody(message), '"', |ErrorPrefix|) == |ErrorPrefix| + |message|
            <==> '"' !in message
  {
    var body := ErrorBody(message);
    var k := IndexOf(body, '"', |ErrorPrefix|);
    assert body[|ErrorPrefix| + |message|] == '"';
    if '"' in message {
      var i :| 0 <= i < |message| && message[i] == '"';
      assert body[|ErrorPrefix| + i] == '"';
    } else {
      forall i | |ErrorPrefix| <= i < |ErrorPrefix| + |message| ensures body[i] != '"' {
        assert body[i] == message[i - |ErrorPrefix|];
      }
      IndexOfFirst(body, '"', |ErrorPrefix|, |ErrorPrefix| + |message|);
    }
  }

  lemma IndexOfFirst(s: string, c: char, from: nat, k: nat)
    requires from <= k < |s| && s[k] == c
    requires forall i :: from <= i < k ==> s[i] != c
    ensures IndexOf(s, c, from) == k
  {
  }

  /** The transport calls `send` makes, in order. */
  datatype Event =
    | NewResponse(headers: seq<Field>)
    | SetStatus(statusCode: u16)
    | SetOutparam
    | Write(content: string)
    | Finish

  /** `send`: create the response with the headers, set the status, commit the
      response to the out-parameter, write the body when there is one, and
      finish the body stream on every path. */
  function Send(b: ResponseBuilder): (trace: seq<Event>)
    ensures |trace| == if b.bodyContent.Some? then 5 else 4
    ensures trace[|trace| - 1] == Finish
    ensures trace[0] == NewResponse(b.headers) && trace[1] == SetStatus(b.statusCode) && trace[2] == SetOutparam
    ensures Count(trace, SetOutparam) == 1 && Count(trace, Finish) == 1
    ensures forall i :: 0 <= i < |trace| && trace[i].Write? ==> b.bodyContent == Some(trace[i].content)
    ensures (exists i :: 0 <= i < |trace| && trace[i].Write?) <==> b.bodyContent.Some?
  {
    var write := if b.bodyContent.Some? then [Write(b.bodyContent.value)] else [];
    var opening := [NewResponse(b.headers), SetStatus(b.statusCode), SetOutparam];
    var trace := opening + write + [Finish];
    assert opening[1..] == [SetStatus(b.statusCode), SetOutparam];
    assert [SetStatus(b.statusCode), SetOutparam][1..] == [SetOutparam];
    assert [SetOutparam][1..] == [];
    assert Count([SetOutparam], SetOutparam) == 1 && Count([SetOutparam], Finish) == 0;
    assert Count([SetStatus(b.statusCode), SetOutparam], SetOutparam) == 1;
    assert Count([SetStatus(b.statusCode), SetOutparam], Finish) == 0;
    assert Count(opening, SetOutparam) == 1 && Count(opening, Finish) == 0;
    assert Count(write, SetOutparam) == 0 && Count(write, Finish) == 0;
    assert Count([Finish], SetOutparam) == 0 && Count([Finish], Finish) == 1;
    CountAppend(opening + write, [Finish], SetOutparam);
    CountAppend(opening + write, [Finish], Finish);
    CountAppend(opening, write, SetOutparam);
    CountAppend(opening, write, Finish);
    assert b.bodyContent.Some? ==> trace[3].Write?;
    trace
  }

  /** How many times `e` occurs in `trace`. */
  function Count(trace: seq<Event>, e: Event): nat
  {
    if |trace| == 0 then 0 else (if trace[0] == e then 1 else 0) + Count(trace[1..], e)
  }

  lemma {:induction false} CountAppend(a: seq<Event>, b: seq<Event>, e: Event)
    ensures Count(a + b, e) == Count(a, e) + Count(b, e)
    decreases |a|
  {
    if |a| == 0 {
      assert a + b == b;
    } else {
      assert (a + b)[1..] == a[1..] + b;
      CountAppend(a[1..], b, e);
    }
  }
}

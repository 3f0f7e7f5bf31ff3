/** The `mycors` protocol handler of cors.rs: preflight requests are
    answered with the CORS headers, every other request is echoed back,
    and a response that cannot be built falls back to an empty 500. The
    response builder's checks are those of the `http` crate: a status
    between 100 and 999, header names made of token characters, header values of visible ASCII, tab, or bytes above 127. */
module Cors {
  import opened Base
  import opened Utf8

  datatype Request = Request(verb: string, body: Bytes)

  datatype Response = Response(status: nat, headers: seq<(string, string)>, body: Bytes)

  predicate IsTokenChar(c: char)
  {
    || ('a' <= c <= 'z') || ('A' <= c <= 'Z') || ('0' <= c <= '9')
    || c in "!#$%&'*+-.^_`|~"
  }

  predicate ValidHeaderName(name: string)
  {
    |name| > 0 && forall i :: 0 <= i < |name| ==> IsTokenChar(name[i])
  }

  predicate IsValueChar(c: char)
  {
    c == '\t' || (' ' <= c && c != '\U{007F}')
  }

  predicate ValidHeaderValue(value: string)
  {
    forall i :: 0 <= i < |value| ==> IsValueChar(value[i])
  }

  predicate ValidHeaders(headers: seq<(string, string)>)
  {
    forall i :: 0 <= i < |headers| ==> ValidHeaderName(headers[i].0) && ValidHeaderValue(headers[i].1)
  }

  /** `Response::builder().status(..).header(..)...body(..)`: the
      response, or an error when the status or a header is invalid. */
  function Build(status: nat, headers: seq<(string, string)>, body: Bytes): (r: Option<Response>)
    ensures r.Some? <==> 100 <= status <= 999 && ValidHeaders(headers)
    ensures r.Some? ==> r.value == Response(status, headers, body)
  {
    if 100 <= status <= 999 && ValidHeaders(headers) then Some(Response(status, headers, body))
    else None
  }

  const AllowMethods: string := "GET, POST, PUT, DELETE, OPTIONS"
  const AllowHeaders: string :=
    "Origin, X-Requested-With, " + "Content-Type, Accept, " + "Authorization, x-api-key, " + "anthropic-version"

  const AllowOrigin: string := "Access-Control-" + "Allow-Origin"

  const PreflightHeaders: seq<(string, string)> := [
    (AllowOrigin, "*"),
    ("Access-Control-" + "Allow-Methods", AllowMethods),
    ("Access-Control-" + "Allow-Headers", AllowHeaders),
    ("Access-Control-" + "Max-Age", "3600")
  ]

  const EchoHeaders: seq<(string, string)> := [(AllowOrigin, "*")]

  /** The 500 response of the fallback. */
  const Fallback: Response := Response(500, [], [])

  /** `CorsHandler::handle_request`. */
  function HandleRequest(request: Request): (r: Response)
    ensures request.verb == "OPTIONS" && Build(204, PreflightHeaders, []).Some? ==>
      r == Build(204, PreflightHeaders, []).value
    ensures request.verb != "OPTIONS" && Build(200, EchoHeaders, request.body).Some? ==>
      r == Build(200, EchoHeaders, request.body).value
    ensures request.verb == "OPTIONS" && Build(204, PreflightHeaders, []).None? ==> r == Fallback
    ensures request.verb != "OPTIONS" && Build(200, EchoHeaders, request.body).None? ==> r == Fallback
  {
    if request.verb == "OPTIONS" then
      match Build(204, PreflightHeaders, [])
      case Some(response) => response
      case None => Fallback
    else
      match Build(200, EchoHeaders, request.body)
      case Some(response) => response
      case None => Fallback
  }

  /** A header name of letters and dashes is valid. */
  lemma LettersAndDashes(s: string)
    requires |s| > 0
    requires forall i :: 0 <= i < |s| ==> ('a' <= s[i] <= 'z') || ('A' <= s[i] <= 'Z') || s[i] == '-'
    ensures ValidHeaderName(s)
  {
  }

  /** A header value of characters from space to '~' is valid. */
  lemma PrintableValue(s: string)
    requires forall i :: 0 <= i < |s| ==> ' ' <= s[i] <= '~'
    ensures ValidHeaderValue(s)
  {
  }

  lemma ValueAppend(a: string, b: string)
    requires ValidHeaderValue(a) && ValidHeaderValue(b)
    ensures ValidHeaderValue(a + b)
  {
    forall i | 0 <= i < |a + b| ensures IsValueChar((a + b)[i]) {
      if i < |a| { assert (a + b)[i] == a[i]; } else { assert (a + b)[i] == b[i - |a|]; }
    }
  }

  lemma AllowHeadersValid()
    ensures ValidHeaderValue(AllowHeaders)
  {
    var p1, p2, p3, p4 := "Origin, X-Requested-With, ", "Content-Type, Accept, ", "Authorization, x-api-key, ", "anthropic-version";
    PrintableValue(p1);
    PrintableValue(p2);
    PrintableValue(p3);
    PrintableValue(p4);
    ValueAppend(p1, p2);
    ValueAppend(p1 + p2, p3);
    ValueAppend(p1 + p2 + p3, p4);
  }

  lemma NameAppend(a: string, b: string)
    requires ValidHeaderName(a) && ValidHeaderName(b)
    ensures ValidHeaderName(a + b)
  {
    forall i | 0 <= i < |a + b| ensures IsTokenChar((a + b)[i]) {
      if i < |a| { assert (a + b)[i] == a[i]; } else { assert (a + b)[i] == b[i - |a|]; }
    }
  }

  lemma PreflightNamesValid()
    ensures forall i :: 0 <= i < |PreflightHeaders| ==> ValidHeaderName(PreflightHeaders[i].0)
  {
    var prefix := "Access-Control-";
    LettersAndDashes(prefix);
    LettersAndDashes("Allow-Origin");
    LettersAndDashes("Allow-Methods");
    LettersAndDashes("Allow-Headers");
    LettersAndDashes("Max-Age");
    NameAppend(prefix, "Allow-Origin");
    NameAppend(prefix, "Allow-Methods");
    NameAppend(prefix, "Allow-Headers");
    NameAppend(prefix, "Max-Age");
  }

  lemma PreflightValuesValid()
    ensures forall i :: 0 <= i < |PreflightHeaders| ==> ValidHeaderValue(PreflightHeaders[i].1)
  {
    PrintableValue("*");
    PrintableValue(AllowMethods);
    AllowHeadersValid();
    PrintableValue("3600");
  }

  lemma PreflightHeadersValid()
    ensures ValidHeaders(PreflightHeaders)
  {
    PreflightNamesValid();
    PreflightValuesValid();
  }

  /** The constant headers are all valid, so the fallback is never taken:
      a preflight request gets a 204 with exactly the four CORS headers and
      an empty body, and any other request a 200 carrying the allow-origin
      header and the request body byte for byte. */
  lemma HandleRequestSpec(request: Request)
    ensures request.verb == "OPTIONS" ==> HandleRequest(request) == Response(204, PreflightHeaders, [])
    ensures request.verb != "OPTIONS" ==> HandleRequest(request) == Response(200, EchoHeaders, request.body)
  {
    PreflightHeadersValid();
    assert ValidHeaders(EchoHeaders);
  }
}

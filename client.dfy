/** The MyDynDNS API client (client.go): request shape, status check and the bounded read of the
    response body. The HTTP transport and Go's IP text parser are passed in as functions. */
module Sdk {
  import opened Results

  type byte = bv8

  /** `maxIPStrLen`: the most bytes of a response body that are read. */
  const MaxIPStrLen: nat := 48

  const MyIPPath: string := "my-ip"
  const UpdateAliasPath: string := "dns-value"

  /** The client's configuration: the service's base URL and the API key. */
  datatype Client = Client(baseURL: string, apiKey: string)

  /** A request: its method, its parsed URL written out again (`req.URL.String()`), its headers. */
  datatype Request = Request(verb: string, url: string, headers: map<string, string>)

  datatype Response = Response(statusCode: int, body: seq<byte>)

  datatype Error =
    | InvalidRequest(url: string)                   // http.NewRequestWithContext cannot parse the URL
    | TransportError(reason: string)                // an error from http.Client.Do
    | UnexpectedStatusCode(url: string, statusCode: int)
    | ParseError(text: seq<byte>)                   // net.ParseError{Type: "IP address"}

  /** `newRequest`: a request for `<BaseURL>/<path>` with the given method, asking for plain text
      and carrying the API key. `parseURL` stands for Go's URL parser: it gives the parsed URL as
      `URL.String()` writes it out (a scheme is lower-cased, for one), or nothing when the text
      does not parse, which is the only error. */
  function NewRequest(c: Client, verb: string, path: string, parseURL: string -> Option<string>): (r: Result<Request, Error>)
    ensures var raw := c.baseURL + "/" + path;
            (r.Failure? <==> parseURL(raw).None?) && (r.Failure? ==> r.error == InvalidRequest(raw))
    ensures r.Success? ==> r.value.verb == verb && r.value.url == parseURL(c.baseURL + "/" + path).value
    ensures r.Success? ==> r.value.headers.Keys == {"accept", "x-api-key"}
    ensures r.Success? ==> r.value.headers["accept"] == "text/plain" && r.value.headers["x-api-key"] == c.apiKey
  {
    var raw := c.baseURL + "/" + path;
    match parseURL(raw)
    case None => Failure(InvalidRequest(raw))
    case Some(url) => Success(Request(verb, url, map["accept" := "text/plain", "x-api-key" := c.apiKey]))
  }

  /** `doRequest`: a transport error is passed on; a response whose status is not 200 is kept but
      turned into an `UnexpectedStatusCode` error carrying the request's parsed URL. */
  function DoRequest(req: Request, sent: Result<Response, string>): (r: (Option<Response>, Option<Error>))
    ensures sent.Failure? ==> r == (None, Some(TransportError(sent.error)))
    ensures sent.Success? ==> r.0 == Some(sent.value)
    ensures sent.Success? ==> (r.1.None? <==> sent.value.statusCode == 200)
    ensures r.1.Some? && sent.Success? ==>
              r.1.value == UnexpectedStatusCode(req.url, sent.value.statusCode)
  {
    match sent
    case Failure(reason) => (None, Some(TransportError(reason)))
    case Success(resp) =>
      if resp.statusCode != 200 then (Some(resp), Some(UnexpectedStatusCode(req.url, resp.statusCode)))
      else (Some(resp), None)
  }

  /** `io.LimitReader(body, maxIPStrLen)` over a response body that hands out at most `step`
      bytes per read and reports EOF once it is exhausted. */
  class LimitedReader {
    const body: seq<byte>
    const step: nat
    var pos: nat       // bytes of the body handed out so far
    var n: nat         // LimitedReader.N: bytes still allowed

    ghost predicate Valid()
      reads this
    {
      pos <= |body| && step > 0
    }

    constructor (body: seq<byte>, step: nat, limit: nat)
      requires step > 0
      ensures Valid() && this.body == body && this.step == step && pos == 0 && n == limit
    {
      this.body, this.step, this.pos, this.n := body, step, 0, limit;
    }

    /** `Read(p[off:])`: at most `n` bytes, at most `step` bytes and at most what is left of the
        body are copied into `p` from `off`; EOF when the limit is used up or the body is exhausted. */
    method Read(p: array<byte>, off: nat) returns (count: nat, eof: bool)
      requires Valid() && off <= p.Length
      modifies this, p
      ensures Valid()
      ensures eof <==> old(n) == 0 || old(pos) == |body|
      ensures eof ==> count == 0
      ensures !eof && off < p.Length ==> 0 < count
      ensures count <= old(n) && off + count <= p.Length && old(pos) + count <= |body|
      ensures pos == old(pos) + count && n == old(n) - count
      ensures p[..off] == old(p[..off]) && p[off..off + count] == body[old(pos)..pos]
    {
      if n == 0 || pos == |body| {
        return 0, true;
      }
      var start, left := pos, n;
      var want := p.Length - off;
      if want > left { want := left; }
      if want > step { want := step; }
      if want > |body| - start { want := |body| - start; }
      CopyInto(p, off, body[start..start + want]);
      pos, n := start + want, left - want;
      return want, false;
    }
  }

  /** `copy(p[off:], src)`: the bytes of `src` land in `p` from `off`; what is before `off` stays. */
  method CopyInto(p: array<byte>, off: nat, src: seq<byte>)
    requires off + |src| <= p.Length
    modifies p
    ensures p[..off] == old(p[..off]) && p[off..off + |src|] == src
  {
    var k := 0;
    while k < |src|
      invariant 0 <= k <= |src|
      invariant p[..off] == old(p[..off])
      invariant p[off..off + k] == src[..k]
    {
      p[off + k] := src[k];
      assert p[off..off + k + 1] == p[off..off + k] + [p[off + k]];
      assert src[..k + 1] == src[..k] + [src[k]];
      k := k + 1;
    }
    assert src[..k] == src;
  }

  /** What `ip.UnmarshalText(text)` yields: `None` is the nil `net.IP` that an empty text gives
      without error; `unmarshal` stands for Go's parser of non-empty IP texts. */
  function Interpret<IP>(text: seq<byte>, unmarshal: seq<byte> -> Option<IP>): (r: Result<Option<IP>, Error>)
    ensures |text| == 0 ==> r == Success(None)
    ensures |text| > 0 ==> (r.Success? <==> unmarshal(text).Some?)
    ensures r.Success? && |text| > 0 ==> r.value == unmarshal(text)
    ensures r.Failure? ==> r.error == ParseError(text)
  {
    if |text| == 0 then Success(None)
    else
      match unmarshal(text)
      case Some(ip) => Success(Some(ip))
      case None => Failure(ParseError(text))
  }

  /** `parseIP`: reads the body into a 48-byte buffer until EOF and parses only the bytes read,
      so a body longer than 48 bytes is cut to its first 48 bytes before parsing. */
  method ParseIP<IP>(body: seq<byte>, step: nat, unmarshal: seq<byte> -> Option<IP>)
    returns (r: Result<Option<IP>, Error>)
    requires step > 0
    ensures |body| <= MaxIPStrLen ==> r == Interpret(body, unmarshal)
    ensures |body| > MaxIPStrLen ==> r == Interpret(body[..MaxIPStrLen], unmarshal)
    ensures r.Failure? ==> r.error.ParseError? && |r.error.text| <= MaxIPStrLen
  {
    var lr := new LimitedReader(body, step, MaxIPStrLen);
    var buf := new byte[MaxIPStrLen];
    var size := 0;
    while true
      invariant lr.Valid() && lr.body == body && fresh(lr)
      invariant 0 <= size <= MaxIPStrLen && lr.pos == size && lr.n == MaxIPStrLen - size
      invariant buf[..size] == body[..size]
      decreases MaxIPStrLen - size
    {
      var count, eof := lr.Read(buf, size);
      size := size + count;
      if eof {
        break;
      }
    }
    assert size == MaxIPStrLen || size == |body|;
    if |body| <= MaxIPStrLen {
      assert buf[..size] == body[..|body|] == body;
    }
    r := Interpret(buf[..size], unmarshal);
  }

  /** A body longer than any IP text the parser accepts is rejected with the first 48 bytes as
      the offending text. */
  lemma OverlongBodyRejected<IP>(body: seq<byte>, unmarshal: seq<byte> -> Option<IP>)
    requires |body| > MaxIPStrLen
    requires forall text: seq<byte> :: |text| >= MaxIPStrLen ==> unmarshal(text).None?
    ensures Interpret(body[..MaxIPStrLen], unmarshal) == Failure(ParseError(body[..MaxIPStrLen]))
  {
    assert |body[..MaxIPStrLen]| == MaxIPStrLen;
  }

  /** What `fetchIP` returns for a request that `send` (the HTTP client) answers with `sent`. */
  function Fetched<IP>(req: Result<Request, Error>, sent: Result<Response, string>,
                       unmarshal: seq<byte> -> Option<IP>): Result<Option<IP>, Error>
  {
    if req.Failure? then Failure(req.error)
    else match sent
      case Failure(reason) => Failure(TransportError(reason))
      case Success(resp) =>
        if resp.statusCode != 200 then Failure(UnexpectedStatusCode(req.value.url, resp.statusCode))
        else if |resp.body| <= MaxIPStrLen then Interpret(resp.body, unmarshal)
        else Interpret(resp.body[..MaxIPStrLen], unmarshal)
  }

  /** `fetchIP`: builds the request, sends it, checks the status and parses the body; the result is
      `Fetched` of the request and of the response `send` gives it. */
  method FetchIP<IP>(c: Client, verb: string, path: string, parseURL: string -> Option<string>,
                     send: Request -> Result<Response, string>, step: nat, unmarshal: seq<byte> -> Option<IP>)
    returns (r: Result<Option<IP>, Error>)
    requires step > 0
    ensures var req := NewRequest(c, verb, path, parseURL);
            r == Fetched(req, if req.Success? then send(req.value) else Failure(""), unmarshal)
  {
    var req := NewRequest(c, verb, path, parseURL);
    if req.Failure? {
      return Failure(req.error);
    }
    var (resp, err) := DoRequest(req.value, send(req.value));
    if err.Some? {
      return Failure(err.value);
    }
    r := ParseIP(resp.value.body, step, unmarshal);
  }

  /** A 200 response is never reported as a status error, and any other status always is, with
      the parsed form of `<BaseURL>/<path>`. */
  lemma StatusDecidesFailure<IP>(c: Client, verb: string, path: string, parseURL: string -> Option<string>,
                                 resp: Response, unmarshal: seq<byte> -> Option<IP>)
    requires parseURL(c.baseURL + "/" + path).Some?
    ensures var r := Fetched(NewRequest(c, verb, path, parseURL), Success(resp), unmarshal);
            (r.Failure? && r.error.UnexpectedStatusCode?) <==> resp.statusCode != 200
    ensures var r := Fetched(NewRequest(c, verb, path, parseURL), Success(resp), unmarshal);
            resp.statusCode != 200 ==> r.error == UnexpectedStatusCode(parseURL(c.baseURL + "/" + path).value, resp.statusCode)
  {
  }

  /** `MyIPWithContext`: a GET of `<BaseURL>/my-ip`. */
  method MyIP<IP>(c: Client, parseURL: string -> Option<string>, send: Request -> Result<Response, string>, step: nat,
                  unmarshal: seq<byte> -> Option<IP>)
    returns (r: Result<Option<IP>, Error>)
    requires step > 0
    ensures var req := NewRequest(c, "GET", MyIPPath, parseURL);
            req.Success? ==> req.value.verb == "GET" && req.value.url == parseURL(c.baseURL + "/" + MyIPPath).value
    ensures var req := NewRequest(c, "GET", MyIPPath, parseURL);
            r == Fetched(req, if req.Success? then send(req.value) else Failure(""), unmarshal)
  {
    r := FetchIP(c, "GET", MyIPPath, parseURL, send, step, unmarshal);
  }

  /** `UpdateAliasWithContext`: a POST to `<BaseURL>/dns-value`, which also asks the service to
      point the alias at the caller's address. */
  method UpdateAlias<IP>(c: Client, parseURL: string -> Option<string>, send: Request -> Result<Response, string>, step: nat,
                         unmarshal: seq<byte> -> Option<IP>)
    returns (r: Result<Option<IP>, Error>)
    requires step > 0
    ensures var req := NewRequest(c, "POST", UpdateAliasPath, parseURL);
            req.Success? ==> req.value.verb == "POST" && req.value.url == parseURL(c.baseURL + "/" + UpdateAliasPath).value
    ensures var req := NewRequest(c, "POST", UpdateAliasPath, parseURL);
            r == Fetched(req, if req.Success? then send(req.value) else Failure(""), unmarshal)
  {
    r := FetchIP(c, "POST", UpdateAliasPath, parseURL, send, step, unmarshal);
  }
}

/** The Python request helpers (purpleair_api/PurpleAirAPIHelpers.py):
    URL assembly and validation for GET, the shape of the three requests,
    the handling of the server's answer, and the sensor-data sanitiser.
    The network is a function parameter `send` from a request to the
    server's response; a response carries the payload already parsed. */
module Helpers {
  import opened Wrappers
  import Text
  import Query
  import Status

  /** A Python argument, as far as the client looks at it: None, a boolean,
      an integer or a string. */
  datatype Value = PyNone | PyBool(b: bool) | PyInt(i: int) | PyStr(s: string)

  /** The base of every PurpleAir API v1 URL the Python facades build. */
  const BaseUrl: string := "https://api.purpleair.com/v1/"

  lemma BaseUrlClean()
    ensures '"' !in BaseUrl && ' ' !in BaseUrl
    ensures Text.StripQuotesAndSpaces(BaseUrl) == BaseUrl
  {
    Text.StripClean(BaseUrl);
  }

  /** A path without quotes or spaces under the base URL survives
      stripping unchanged. */
  lemma StripUnderBase(path: string)
    requires '"' !in path && ' ' !in path
    ensures Text.StripQuotesAndSpaces(BaseUrl + path) == BaseUrl + path
  {
    Text.StripConcat(BaseUrl, path);
    BaseUrlClean();
    Text.StripClean(path);
  }

  /** Python's str() (and f-string formatting) of a Value. */
  function Show(v: Value): string
  {
    match v
    case PyNone => "None"
    case PyBool(b) => if b then "True" else "False"
    case PyInt(i) => Text.IntToDecimal(i)
    case PyStr(s) => s
  }

  /** Python truthiness of a Value. */
  predicate Truthy(v: Value)
  {
    match v
    case PyNone => false
    case PyBool(b) => b
    case PyInt(i) => i != 0
    case PyStr(s) => |s| > 0
  }

  /** The JSON a Value serialises to in a request body. */
  function ToJson(v: Value): Json
  {
    match v
    case PyNone => Null
    case PyBool(b) => Bool(b)
    case PyInt(i) => Int(i)
    case PyStr(s) => Str(s)
  }

  /** A dictionary entry of optional parameters: a None value is absent,
      any other value is present as its str(). */
  function Param(name: string, v: Value): Query.Param
  {
    (name, if v.PyNone? then None else Some(Show(v)))
  }

  function Params(entries: seq<(string, Value)>): (r: seq<Query.Param>)
    ensures |r| == |entries|
    ensures forall k :: 0 <= k < |r| ==> r[k] == Param(entries[k].0, entries[k].1)
  {
    if |entries| == 0 then [] else [Param(entries[0].0, entries[0].1)] + Params(entries[1..])
  }

  datatype Verb = Get | Post | Delete

  /** What goes on the wire: the method, the URL, the `X-API-Key` header
      value if one is sent, and the JSON body if one is sent. */
  datatype Request = Request(verb: Verb, url: string, apiKey: Option<string>, body: Option<seq<(string, Json)>>)

  /** What comes back: the status code and the parsed body (None for an
      empty body). */
  datatype Response = Response(status: int, payload: Option<Json>)

  type Transport = Request -> Response

  /** The arguments of send_url_get_request. `url` None stands for a None
      request URL; `params` None for no parameter dictionary. */
  datatype GetCall = GetCall(url: Option<string>, apiKey: Value, separator: Value, params: Option<seq<Query.Param>>)

  /** The arguments of send_url_post_request and send_url_delete_request. */
  datatype BodyCall = BodyCall(url: string, apiKey: Value, body: seq<(string, Json)>)

  predicate ValidSeparator(separator: Value) {
    separator == PyStr("?") || separator == PyStr("&")
  }

  /** The query text appended to the request URL before stripping. */
  function QueryText(call: GetCall): string
  {
    if call.params.Some? then Query.Joined(Query.Present(call.params.value), Show(call.separator)) else ""
  }

  /** The URL send_url_get_request sends to, or the error it raises before
      sending anything. */
  function BuildUrl(call: GetCall): (r: Result<string>)
    ensures call.url.None? ==> r.Err?
    ensures call.params.Some? && !ValidSeparator(call.separator) ==> r.Err?
    ensures r.Ok? <==> call.url.Some? && (call.params.Some? ==> ValidSeparator(call.separator))
    ensures r.Ok? ==> '"' !in r.value && ' ' !in r.value
    ensures r.Ok? && (call.params.None? || Query.Present(call.params.value) == []) ==>
              r.value == Text.StripQuotesAndSpaces(call.url.value)
  {
    if call.url.None? then
      Err(ApiError("A request URL string must be provided"))
    else if call.params.Some? && !ValidSeparator(call.separator) then
      Err(ApiError("Invalid `first_optional_parameter_separator: " + Show(call.separator) +
                   "` passed into `send_url_get_request`!"))
    else
      assert call.url.value + "" == call.url.value;
      Ok(Text.StripQuotesAndSpaces(call.url.value + QueryText(call)))
  }

  /** A call that passes validation sends to its stripped URL followed by
      its query text. */
  lemma BuildUrlIs(call: GetCall, query: string)
    requires call.url.Some? && (call.params.Some? ==> ValidSeparator(call.separator))
    requires QueryText(call) == query
    ensures BuildUrl(call) == Ok(Text.StripQuotesAndSpaces(call.url.value + query))
  {
  }

  /** With at least one present parameter, the sent URL is the stripped base,
      then the caller's separator and the first present parameter, then
      `&name=value` for each later present parameter in order; each part is
      stripped on its own. */
  lemma BuildUrlWithParameters(call: GetCall)
    requires BuildUrl(call).Ok? && call.params.Some?
    requires Query.Present(call.params.value) != []
    ensures var ps := Query.Present(call.params.value);
            BuildUrl(call).value ==
              Text.StripQuotesAndSpaces(call.url.value) +
              Text.StripQuotesAndSpaces(Show(call.separator) + Query.Field(ps[0].0, ps[0].1)) +
              Text.StripQuotesAndSpaces(Query.AmpEach(ps[1..]))
  {
    var ps := Query.Present(call.params.value);
    var head := Show(call.separator) + Query.Field(ps[0].0, ps[0].1);
    var tail := Query.AmpEach(ps[1..]);
    var q := QueryText(call);
    assert q == head + tail by {
      Query.JoinedAmpIsAmpEach(ps[1..]);
    }
    assert BuildUrl(call).value == Text.StripQuotesAndSpaces(call.url.value + q);
    StripThree(call.url.value, head, tail);
  }

  lemma StripThree(a: string, b: string, c: string)
    ensures Text.StripQuotesAndSpaces(a + (b + c)) ==
            Text.StripQuotesAndSpaces(a) + Text.StripQuotesAndSpaces(b) + Text.StripQuotesAndSpaces(c)
  {
    Text.StripConcat(a, b + c);
    Text.StripConcat(b, c);
  }

  /** The request send_url_get_request sends: a GET to the built URL, with
      the key header only when a key is given. */
  function PrepareGet(call: GetCall): (r: Result<Request>)
    ensures r.Ok? <==> BuildUrl(call).Ok?
    ensures r.Ok? ==> r.value.verb == Get && r.value.url == BuildUrl(call).value && r.value.body.None?
    ensures r.Ok? ==> (r.value.apiKey.None? <==> call.apiKey.PyNone?)
    ensures r.Ok? && call.apiKey.PyStr? ==> r.value.apiKey == Some(call.apiKey.s)
    ensures r.Ok? && !call.apiKey.PyNone? ==> r.value.apiKey == Some(Show(call.apiKey))
  {
    var url :- BuildUrl(call);
    Ok(Request(Get, url, if call.apiKey.PyNone? then None else Some(Show(call.apiKey)), None))
  }

  /** payload[name], as Python evaluates it on the parsed payload. */
  function Lookup(payload: Option<Json>, name: string): (r: Result<Json>)
    ensures r.Ok? <==> payload.Some? && payload.value.Obj? && name in payload.value.fields
    ensures r.Ok? ==> r.value == payload.value.fields[name]
    ensures r.Err? ==> r.error.PyError?
  {
    if payload.None? then Err(PyError(TypeError, "payload is None"))
    else if !payload.value.Obj? then Err(PyError(TypeError, "payload is not a dictionary"))
    else if name !in payload.value.fields then Err(PyError(KeyError, name))
    else Ok(payload.value.fields[name])
  }

  /** The tail shared by the three send_url_*_request helpers: classify the
      status; on success hand back the parsed payload unchanged, on failure
      raise with the status and the payload's `error` and `description`. */
  function Receive(codes: Status.Codes, response: Response): (r: Result<Option<Json>>)
    ensures r.Ok? <==> response.status in codes.success
    ensures r.Ok? ==> r.value == response.payload
    ensures response.status !in codes.success && response.status !in codes.errors ==>
              r == Err(ApiError("Unkown status code - " + Text.IntToDecimal(response.status) + "!"))
    ensures response.status !in codes.success && response.status in codes.errors ==>
              match (Lookup(response.payload, "error"), Lookup(response.payload, "description"))
              case (Ok(e), Ok(d)) => r == Err(HttpFailure(response.status, e, d))
              case (Err(e), _) => r == Err(e)
              case (Ok(_), Err(d)) => r == Err(d)
  {
    var success :- Status.VerifyStatusPy(response.status, codes);
    if success then Ok(response.payload)
    else
      var error :- Lookup(response.payload, "error");
      var description :- Lookup(response.payload, "description");
      Err(HttpFailure(response.status, error, description))
  }

  /** send_url_get_request. A call whose URL cannot be built fails without
      the transport being consulted. */
  function SendGet(codes: Status.Codes, call: GetCall, send: Transport): (r: Result<Option<Json>>)
    ensures PrepareGet(call).Err? ==> r == Err(PrepareGet(call).error)
    ensures PrepareGet(call).Ok? ==> r == Receive(codes, send(PrepareGet(call).value))
  {
    var request :- PrepareGet(call);
    Receive(codes, send(request))
  }

  /** The request send_url_post_request or send_url_delete_request sends:
      the key header always (str() of the key, so a None key is sent as the
      text None), and the body only when it is not empty. */
  function BodyRequest(verb: Verb, call: BodyCall): (r: Request)
    ensures r.verb == verb && r.url == call.url
    ensures r.apiKey == Some(Show(call.apiKey))
    ensures r.body.Some? <==> |call.body| > 0
    ensures r.body.Some? ==> r.body.value == call.body
  {
    Request(verb, call.url, Some(Show(call.apiKey)), if |call.body| > 0 then Some(call.body) else None)
  }

  /** send_url_post_request: the key header and the body as BodyRequest
      states, sent as a POST, and the answer classified by Receive. */
  function SendPost(codes: Status.Codes, call: BodyCall, send: Transport): (r: Result<Option<Json>>)
    ensures var sent := BodyRequest(Post, call);
            && sent.verb == Post && sent.url == call.url && sent.apiKey == Some(Show(call.apiKey))
            && (sent.body.Some? <==> |call.body| > 0)
            && r == Receive(codes, send(sent))
  {
    Receive(codes, send(BodyRequest(Post, call)))
  }

  /** send_url_delete_request: the same request as a post, sent as a DELETE. */
  function SendDelete(codes: Status.Codes, call: BodyCall, send: Transport): (r: Result<Option<Json>>)
    ensures var sent := BodyRequest(Delete, call);
            && sent.verb == Delete && sent.url == call.url && sent.apiKey == Some(Show(call.apiKey))
            && (sent.body.Some? <==> |call.body| > 0)
            && r == Receive(codes, send(sent))
  {
    Receive(codes, send(BodyRequest(Delete, call)))
  }

  /** sanitize_sensor_data_from_paa: every accepted field name missing from
      the `sensor` sub-dictionary is added with its default value; present
      fields and every other top-level entry keep their values. The accepted
      field names and their defaults come from a constants module that is
      not part of this model, so they are a parameter. The payload is only
      subscripted inside the loop over the accepted names, so with no names
      it comes back as given, whatever it is; otherwise subscripting a
      non-dictionary raises TypeError, a missing `sensor` KeyError, and
      calling keys() on a `sensor` that is not a dictionary AttributeError. */
  function SanitizeSensorData(defaults: map<string, Json>, data: Json): (r: Result<Json>)
    ensures r.Ok? <==> defaults == map[] || HasSensorObject(data)
    ensures defaults == map[] ==> r == Ok(data)
    ensures r.Err? ==> r.error.PyError?
    ensures r.Err? && !data.Obj? ==> r.error.kind == TypeError
    ensures r.Err? && data.Obj? && "sensor" !in data.fields ==> r.error.kind == KeyError
    ensures r.Err? && data.Obj? && "sensor" in data.fields ==> r.error.kind == AttributeError
    ensures HasSensorObject(data) ==>
              && r.Ok? && r.value.Obj? && r.value.fields.Keys == data.fields.Keys
              && (forall k :: k in data.fields && k != "sensor" ==> r.value.fields[k] == data.fields[k])
    ensures HasSensorObject(data) ==>
              var before := data.fields["sensor"].fields;
              var after := r.value.fields["sensor"];
              && after.Obj?
              && after.fields.Keys == before.Keys + defaults.Keys
              && (forall k :: k in before ==> after.fields[k] == before[k])
              && (forall k :: k in defaults && k !in before ==> after.fields[k] == defaults[k])
  {
    if defaults == map[] then Ok(data)
    else if !data.Obj? then Err(PyError(TypeError, "data is not subscriptable by a string"))
    else if "sensor" !in data.fields then Err(PyError(KeyError, "sensor"))
    else if !data.fields["sensor"].Obj? then Err(PyError(AttributeError, "keys"))
    else
      var sensor := data.fields["sensor"].fields;
      Ok(Obj(data.fields["sensor" := Obj(defaults + sensor)]))
  }

  /** The payload is a dictionary whose `sensor` entry is a dictionary. */
  predicate HasSensorObject(data: Json) {
    data.Obj? && "sensor" in data.fields && data.fields["sensor"].Obj?
  }
}

/** The C++ request helpers (purpleair_api/src/PurpleAirAPIHelpers.cpp).
    A GET URL is the request URL, then (when the separator and the map are
    both non-empty) the separator, then every entry of the std::map with a
    non-empty value, in key order, as `name=escaped value` joined by `&`.
    The libcurl transfer is the parameter `send`, and curl_easy_escape is
    the parameter `escape`. */
module CppHelpers {
  import opened Wrappers
  import Text
  import Query
  import Status
  import StdMap
  import Helpers

  /** curl_easy_escape: the percent-encoded value, or None for a NULL
      return. */
  type Escape = string -> Option<string>

  /** The text written for a value: its escape, or the raw value when
      escaping failed. */
  function Encoded(escape: Escape, value: string): string
  {
    match escape(value)
    case Some(e) => e
    case None => value
  }

  /** One map entry as a query parameter: an empty value is a parameter
      without a value. */
  function ParamOf(escape: Escape, e: (string, string)): Query.Param
  {
    (e.0, if e.1 == "" then None else Some(Encoded(escape, e.1)))
  }

  function AsParams(escape: Escape, m: StdMap.Entries): seq<Query.Param>
  {
    seq(|m|, i requires 0 <= i < |m| => ParamOf(escape, m[i]))
  }

  /** The URL send_url_get_request builds, stated declaratively. */
  function FullUrl(url: string, separator: string, m: StdMap.Entries, escape: Escape): string
  {
    if separator != "" && |m| > 0 then url + separator + Query.Joined(Query.Present(AsParams(escape, m)), "")
    else url
  }

  /** The loop of send_url_get_request as the source writes it: append the
      separator when both it and the map are non-empty, then walk the map,
      skip empty values, and put `&` before every included entry but the
      first. The result is the declarative FullUrl. */
  method BuildFullUrl(url: string, separator: string, m: StdMap.Entries, escape: Escape)
    returns (full: string)
    ensures full == FullUrl(url, separator, m, escape)
  {
    full := url;
    if separator != "" && |m| > 0 {
      full := full + separator;
      ghost var ps := AsParams(escape, m);
      var first := true;
      var i := 0;
      while i < |m|
        invariant 0 <= i <= |m|
        invariant first <==> |Query.Present(ps[..i])| == 0
        invariant full == url + separator + Query.Joined(Query.Present(ps[..i]), "")
      {
        var name := m[i].0;
        var value := m[i].1;
        ghost var done := Query.Present(ps[..i]);
        Query.PresentStep(ps, i);
        if value != "" {
          var text := Encoded(escape, value);
          assert ps[i] == (name, Some(text));
          JoinedStep(url + separator, done, name, text);
          if !first {
            full := full + "&";
          }
          full := full + (name + "=" + text);
          first := false;
        } else {
          assert done + [] == done;
        }
        i := i + 1;
      }
      assert ps[..i] == ps;
    }
  }

  /** One included entry extends the rendering by its separator and its
      `name=value`. */
  lemma JoinedStep(prefix: string, done: seq<(string, string)>, name: string, text: string)
    ensures prefix + Query.Joined(done + [(name, text)], "") ==
            (if |done| == 0 then prefix + Query.Joined(done, "") else prefix + Query.Joined(done, "") + "&") +
            (name + "=" + text)
  {
    Query.JoinedSnoc(done, (name, text), "");
    var j := Query.Joined(done, "");
    var sep := if |done| == 0 then "" else "&";
    var f := Query.Field(name, text);
    assert Query.Joined(done + [(name, text)], "") == j + sep + f;
    Text.ConcatAssoc(prefix, j + sep, f);
    Text.ConcatAssoc(prefix, j, sep);
    assert prefix + j + "" == prefix + j;
  }

  /** The request URL is always a prefix of the full URL; the separator
      follows it exactly when both the separator and the map are
      non-empty. */
  lemma FullUrlPrefix(url: string, separator: string, m: StdMap.Entries, escape: Escape)
    ensures var r := FullUrl(url, separator, m, escape);
            |url| <= |r| && r[..|url|] == url
    ensures var r := FullUrl(url, separator, m, escape);
            separator != "" && |m| > 0 ==> |url| + |separator| <= |r| && r[..|url| + |separator|] == url + separator
    ensures separator == "" || |m| == 0 ==> FullUrl(url, separator, m, escape) == url
  {
    var r := FullUrl(url, separator, m, escape);
    if separator != "" && |m| > 0 {
      assert r == (url + separator) + Query.Joined(Query.Present(AsParams(escape, m)), "");
    }
  }

  lemma {:induction false} PresentNone(params: seq<Query.Param>)
    requires forall i :: 0 <= i < |params| ==> params[i].1.None?
    ensures Query.Present(params) == []
  {
    if |params| > 0 {
      PresentNone(params[1..]);
    }
  }

  /** A map whose every value is empty still gets the separator: the URL
      ends in a dangling separator. */
  lemma DanglingSeparator(url: string, separator: string, m: StdMap.Entries, escape: Escape)
    requires separator != "" && |m| > 0
    requires forall i :: 0 <= i < |m| ==> m[i].1 == ""
    ensures FullUrl(url, separator, m, escape) == url + separator
  {
    PresentNone(AsParams(escape, m));
  }

  /** Exactly the entries with a non-empty value are rendered, each with its
      escaped value (or the raw value when escaping fails). */
  lemma RenderedEntries(m: StdMap.Entries, escape: Escape)
    ensures forall name, text :: (name, text) in Query.Present(AsParams(escape, m)) <==>
              exists i :: 0 <= i < |m| && m[i].0 == name && m[i].1 != "" && text == Encoded(escape, m[i].1)
  {
    var ps := AsParams(escape, m);
    Query.PresentMembers(ps);
    forall name, text
      ensures (name, text) in Query.Present(ps) <==>
              exists i :: 0 <= i < |m| && m[i].0 == name && m[i].1 != "" && text == Encoded(escape, m[i].1)
    {
      if (name, text) in Query.Present(ps) {
        var i :| 0 <= i < |ps| && ps[i] == (name, Some(text));
        assert m[i].0 == name && m[i].1 != "" && text == Encoded(escape, m[i].1);
      }
      if exists i :: 0 <= i < |m| && m[i].0 == name && m[i].1 != "" && text == Encoded(escape, m[i].1) {
        var i :| 0 <= i < |m| && m[i].0 == name && m[i].1 != "" && text == Encoded(escape, m[i].1);
        assert ps[i] == (name, Some(text));
      }
    }
  }

  /** `name=text` is one of the rendered fields of m. */
  predicate Rendered(escape: Escape, m: StdMap.Entries, name: string, text: string) {
    (name, text) in Query.Present(AsParams(escape, m))
  }

  /** For a sorted map, what is rendered under a name is decided by that
      name's entry alone: it is rendered exactly when it holds a non-empty
      value, and then with that value encoded. */
  lemma RenderedByKey(m: StdMap.Entries, escape: Escape, name: string, text: string)
    requires StdMap.Sorted(m)
    ensures Rendered(escape, m, name, text) <==>
              StdMap.Get(m, name).Some? && StdMap.Get(m, name).value != "" &&
              text == Encoded(escape, StdMap.Get(m, name).value)
  {
    RenderedEntries(m, escape);
    if Rendered(escape, m, name, text) {
      var i :| 0 <= i < |m| && m[i].0 == name && m[i].1 != "" && text == Encoded(escape, m[i].1);
      StdMap.GetEntry(m, i);
    }
    if StdMap.Get(m, name).Some? {
      StdMap.GetFound(m, name);
    }
  }

  /** Rendering a map of non-empty values: each entry in key order, the
      first bare and every later one after `&`. Used for the endpoint
      examples below. */
  lemma TwoEntries(url: string, separator: string, a: (string, string), b: (string, string), escape: Escape)
    requires separator != "" && a.1 != "" && b.1 != ""
    ensures FullUrl(url, separator, [a, b], escape) ==
            url + separator + Query.Field(a.0, Encoded(escape, a.1)) + "&" + Query.Field(b.0, Encoded(escape, b.1))
  {
    var ps := AsParams(escape, [a, b]);
    assert ps == [ParamOf(escape, a), ParamOf(escape, b)];
    Query.PresentPair(ParamOf(escape, a), ParamOf(escape, b));
    Query.JoinedTwo((a.0, Encoded(escape, a.1)), (b.0, Encoded(escape, b.1)), "");
  }

  lemma OneEntry(url: string, separator: string, a: (string, string), escape: Escape)
    requires separator != ""
    ensures FullUrl(url, separator, [a], escape) ==
            url + separator + (if a.1 == "" then "" else Query.Field(a.0, Encoded(escape, a.1)))
  {
    var ps := AsParams(escape, [a]);
    assert ps == [ParamOf(escape, a)];
    assert ps[1..] == [];
    if a.1 != "" {
      Query.JoinedOne((a.0, Encoded(escape, a.1)), "");
    }
  }

  // ---------------------------------------------------------------------
  // Requests and responses
  // ---------------------------------------------------------------------

  /** What goes on the wire: the method, the URL, the `X-API-Key` header if
      one is sent, and the POST body (always sent as application/json). */
  datatype CppRequest = CppRequest(verb: Helpers.Verb, url: string, apiKey: Option<string>, body: Option<string>)

  /** What libcurl reports: a failed transfer with curl's message, or the
      status code and the body text. */
  datatype Outcome = CurlFailed(reason: string) | Answered(status: int, body: string)

  type CppTransport = CppRequest -> Outcome

  /** The key header is added only for a non-empty key. */
  function KeyHeader(key: string): (r: Option<string>)
    ensures r.None? <==> key == ""
    ensures r.Some? ==> r.value == key
  {
    if key == "" then None else Some(key)
  }

  /** convert_text_to_json: the text itself; the C++ side never parses. */
  function ConvertTextToJson(text: string): (r: string)
    ensures |r| == |text| && forall i :: 0 <= i < |text| ==> r[i] == text[i]
  {
    text
  }

  /** The shared tail of the three send_url_* helpers: a curl failure or a
      status that is not a success raises; a success returns the body. */
  function CppReceive(outcome: Outcome): (r: Result<string>)
    ensures r.Ok? <==> outcome.Answered? && Status.VerifyStatusCpp(outcome.status) == Ok(true)
    ensures r.Ok? ==> r.value == outcome.body
    ensures outcome.CurlFailed? ==> r == Err(ApiError("CURL error: " + outcome.reason))
    ensures outcome.Answered? && Status.VerifyStatusCpp(outcome.status) == Ok(false) ==>
              r == Err(ApiError("HTTP error code: " + Text.IntToDecimal(outcome.status) + ", Response: " + outcome.body))
    ensures outcome.Answered? && Status.VerifyStatusCpp(outcome.status).Err? ==>
              r == Status.VerifyStatusCpp(outcome.status).PropagateFailure()
  {
    match outcome
    case CurlFailed(reason) => Err(ApiError("CURL error: " + reason))
    case Answered(status, body) =>
      var ok :- Status.VerifyStatusCpp(status);
      if ok then Ok(body)
      else Err(ApiError("HTTP error code: " + Text.IntToDecimal(status) + ", Response: " + body))
  }

  /** In terms of the literal code lists: the body comes back exactly for
      200 and 201; the error codes give the HTTP error; anything else gives
      the unknown-code error. */
  lemma CppReceiveCodes(status: int, body: string)
    ensures CppReceive(Answered(status, body)) == Ok(body) <==> status == 200 || status == 201
    ensures status in {400, 403, 404, 429, 500, 502, 503, 504} ==>
              CppReceive(Answered(status, body)) ==
              Err(ApiError("HTTP error code: " + Text.IntToDecimal(status) + ", Response: " + body))
    ensures status !in {200, 201, 400, 403, 404, 429, 500, 502, 503, 504} ==>
              CppReceive(Answered(status, body)) ==
              Err(ApiError("Unknown status code - " + Text.IntToDecimal(status) + "!"))
  {
    Status.CppClassification(status);
  }

  /** The arguments of send_url_get_request: request URL, key, separator
      and parameter map. */
  datatype GetArgs = GetArgs(url: string, key: string, separator: string, params: StdMap.Entries)

  /** The request send_url_get_request sends: a GET to the request URL
      with its query attached, the key header only for a non-empty key, and
      no body. */
  function GetRequest(args: GetArgs, escape: Escape): (r: CppRequest)
    ensures r.verb == Helpers.Get && r.url == FullUrl(args.url, args.separator, args.params, escape)
    ensures r.apiKey.None? <==> args.key == ""
    ensures r.apiKey.Some? ==> r.apiKey.value == args.key
    ensures r.body.None?
  {
    CppRequest(Helpers.Get, FullUrl(args.url, args.separator, args.params, escape), KeyHeader(args.key), None)
  }

  /** send_url_get_request: the transport is handed a GET to the full URL
      with the key header only for a non-empty key, and its outcome is
      classified by CppReceive. */
  function SendGet(send: CppTransport, args: GetArgs, escape: Escape): (r: Result<string>)
    ensures var sent := GetRequest(args, escape);
            && sent.verb == Helpers.Get && sent.url == FullUrl(args.url, args.separator, args.params, escape)
            && (sent.apiKey.None? <==> args.key == "") && sent.body.None?
            && r == CppReceive(send(sent))
  {
    CppReceive(send(GetRequest(args, escape)))
  }

  /** The request send_url_post_request sends: the body as given. */
  function PostRequest(url: string, key: string, data: string): (r: CppRequest)
    ensures r.verb == Helpers.Post && r.url == url && r.body == Some(data)
    ensures r.apiKey.None? <==> key == ""
    ensures r.apiKey.Some? ==> r.apiKey.value == key
  {
    CppRequest(Helpers.Post, url, KeyHeader(key), Some(data))
  }

  /** The request send_url_delete_request sends: no body. */
  function DeleteRequest(url: string, key: string): (r: CppRequest)
    ensures r.verb == Helpers.Delete && r.url == url && r.body.None?
    ensures r.apiKey.None? <==> key == ""
    ensures r.apiKey.Some? ==> r.apiKey.value == key
  {
    CppRequest(Helpers.Delete, url, KeyHeader(key), None)
  }

  /** send_url_post_request: the transport is handed a POST to the URL
      carrying the data as its body, and its outcome is classified by
      CppReceive. */
  function SendPost(send: CppTransport, url: string, key: string, data: string): (r: Result<string>)
    ensures var sent := PostRequest(url, key, data);
            && sent.verb == Helpers.Post && sent.url == url && sent.body == Some(data)
            && (sent.apiKey.None? <==> key == "")
            && r == CppReceive(send(sent))
  {
    CppReceive(send(PostRequest(url, key, data)))
  }

  /** send_url_delete_request: the transport is handed a DELETE to the
      URL without a body, and its outcome is classified by CppReceive. */
  function SendDelete(send: CppTransport, url: string, key: string): (r: Result<string>)
    ensures var sent := DeleteRequest(url, key);
            && sent.verb == Helpers.Delete && sent.url == url && sent.body.None?
            && (sent.apiKey.None? <==> key == "")
            && r == CppReceive(send(sent))
  {
    CppReceive(send(DeleteRequest(url, key)))
  }

  /** With the header's defaults (no key, no separator, no map) a GET goes
      to the request URL unchanged and without a key header. */
  lemma DefaultGet(url: string, escape: Escape)
    ensures GetRequest(GetArgs(url, "", "", []), escape) == CppRequest(Helpers.Get, url, None, None)
  {
    FullUrlPrefix(url, "", [], escape);
  }
}

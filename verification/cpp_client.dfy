/** The C++ composer (purpleair_api/src/PurpleAirAPI.cpp). The constructor
    stores the address list, rejects a call with nothing to work with, checks
    every non-empty key against the keys endpoint, and insists that the
    read key is reported as READ and the write key as WRITE. The key check
    does not parse JSON: it pulls each `"field": value` out of the response
    text with std::string::find, in size_t arithmetic. */
module CppClient {
  import opened Wrappers
  import Text
  import StdMap
  import Client
  import Status
  import opened CppHelpers

  const KeysUrl: string := "https://api.purpleair.com/v1/keys"

  // ---------------------------------------------------------------------
  // The field extractor
  // ---------------------------------------------------------------------

  /** size_t is 64 bits: its arithmetic is modulo 2^64, and npos is its
      largest value. */
  const SizeModulus: int := 0x1_0000_0000_0000_0000
  const Npos: nat := 0xFFFF_FFFF_FFFF_FFFF

  /** x as a size_t: reduced modulo 2^64. Values already in range are
      unchanged, so the reduction only matters where the source wraps. */
  function SizeT(x: int): (r: nat)
    ensures r < SizeModulus
    ensures 0 <= x < SizeModulus ==> r == x
    ensures x == SizeModulus ==> r == 0
  {
    if 0 <= x < SizeModulus then x else x % SizeModulus
  }

  /** The position find() returns: the index, or npos. */
  function Position(found: Option<nat>): nat
  {
    match found
    case Some(i) => i
    case None => Npos
  }

  /** std::string::substr(pos, count) for pos <= size: at most count
      characters from pos. */
  function Substr(s: string, pos: nat, count: nat): (r: string)
    requires pos <= |s|
    ensures |r| <= count && |r| <= |s| - pos
    ensures count >= |s| - pos ==> r == s[pos..]
    ensures |r| == count || |r| == |s| - pos
    ensures r == s[pos..pos + |r|]
  {
    if count >= |s| - pos then s[pos..] else s[pos..pos + count]
  }

  function Quoted(name: string): string
  {
    "\"" + name + "\""
  }

  /** Where the value starts: one past the first ':' at or after the quoted
      name. Without a ':' this is npos + 1, which wraps to 0. */
  function ValueStart(response: string, at: nat): (start: nat)
    ensures start <= |response|
  {
    SizeT(Position(Text.FindChar(response, ':', at)) + 1)
  }

  /** Where the value ends: the first ',' from start, else the first '}',
      else npos. */
  function ValueEnd(response: string, start: nat): nat
  {
    match Text.FindChar(response, ',', start)
    case Some(e) => e
    case None => Position(Text.FindChar(response, '}', start))
  }

  /** One `if (pos != npos) { ... }` block of _check_an_api_key: the value
      of the field with quotes and spaces removed, or None when the quoted
      name does not occur. */
  function ExtractField(response: string, name: string): (r: Option<string>)
    ensures r.None? <==> Text.FindText(response, Quoted(name), 0).None?
    ensures r.Some? ==> '"' !in r.value && ' ' !in r.value
  {
    match Text.FindText(response, Quoted(name), 0)
    case None => None
    case Some(at) => Some(Text.StripQuotesAndSpaces(RawValue(response, at)))
  }

  /** `response.substr(start, end - start)` for the name found at `at`. */
  function RawValue(response: string, at: nat): string
  {
    var start := ValueStart(response, at);
    Substr(response, start, SizeT(ValueEnd(response, start) - start))
  }

  /** In a response shaped `pre "name": value , post`, where the quoted
      name does not occur earlier, the name has no ':' and the value has no
      ',', the extracted field is the value with quotes and spaces
      removed. (A std::string is always shorter than npos.) */
  lemma ExtractBeforeComma(pre: string, name: string, value: string, post: string)
    requires forall j :: 0 <= j < |pre| ==> !Text.OccursAt(pre + Quoted(name), Quoted(name), j)
    requires ':' !in name && ',' !in value
    requires |pre + Quoted(name) + ":" + value + "," + post| < Npos
    ensures ExtractField(pre + Quoted(name) + ":" + value + "," + post, name) == Some(Text.StripQuotesAndSpaces(value))
  {
    var response := pre + Quoted(name) + ":" + value + "," + post;
    var colon := |pre| + |Quoted(name)|;
    var end := colon + 1 + |value|;
    NameInShape(response, pre, name, value, ',', post, colon, end);
    ValueInShape(response, pre, name, value, post, colon, end);
    ExtractAt(response, name, |pre|, colon, end);
  }

  /** The last field of a flat object: in a response shaped
      `pre "name": value } post`, where the quoted name does not occur
      earlier, the name has no ':', the value has no '}', and no ','
      follows the ':', the value ends at the '}' and the extracted field is
      the value with quotes and spaces removed. */
  lemma ExtractBeforeBrace(pre: string, name: string, value: string, post: string)
    requires forall j :: 0 <= j < |pre| ==> !Text.OccursAt(pre + Quoted(name), Quoted(name), j)
    requires ':' !in name && '}' !in value && ',' !in value && ',' !in post
    requires |pre + Quoted(name) + ":" + value + "}" + post| < Npos
    ensures ExtractField(pre + Quoted(name) + ":" + value + "}" + post, name) == Some(Text.StripQuotesAndSpaces(value))
  {
    var response := pre + Quoted(name) + ":" + value + "}" + post;
    var colon := |pre| + |Quoted(name)|;
    var end := colon + 1 + |value|;
    NameInShape(response, pre, name, value, '}', post, colon, end);
    BraceInShape(response, pre, name, value, post, colon, end);
    ExtractUpTo(response, name, |pre|, colon, end);
  }

  lemma BraceInShape(response: string, pre: string, name: string, value: string, post: string, colon: nat, end: nat)
    requires response == pre + Quoted(name) + ":" + value + "}" + post
    requires colon == |pre| + |Quoted(name)| && end == colon + 1 + |value|
    requires '}' !in value && ',' !in value && ',' !in post
    ensures ValueEnd(response, colon + 1) == end <= |response|
    ensures response[colon + 1..end] == value
  {
    ShapeTail(response, pre, name, value, '}', post, colon);
    BraceAfter(response, colon + 1, value, post);
  }

  /** With no ',' anywhere after the ':', the first '}' ends the value. */
  lemma BraceAfter(response: string, start: nat, value: string, post: string)
    requires start <= |response| && response[start..] == value + "}" + post
    requires '}' !in value && ',' !in value && ',' !in post
    ensures ValueEnd(response, start) == start + |value| <= |response|
    ensures response[start..start + |value|] == value
  {
    StopInTail(response, start, value, '}', post);
    NotInTail(response, start, value, '}', post, ',');
  }

  /** The fields the tests' keys responses carry before api_key_type. */
  const TestPrefix: string := "{\"api_version\" : \"1.1.1\", " + "\"time_stamp\": 123456789, "

  /** The keys endpoint's answer in the shape the tests use, reporting the
      given key type as its last field. */
  function KeysAnswer(keyType: string): string
  {
    TestPrefix + "\"api_key_type\": \"" + keyType + "\"}"
  }

  /** On that answer, with any key type that stripping leaves intact (one
      free of quotes and spaces) and that holds no ',' or '}', the
      api_key_type block reads exactly that key type, from the last field
      of the object. */
  lemma KeyTypeOfResponse(keyType: string)
    requires Text.StripQuotesAndSpaces(keyType) == keyType && ',' !in keyType && '}' !in keyType
    requires |keyType| < Npos - 100
    ensures ExtractField(KeysAnswer(keyType), "api_key_type") == Some(keyType)
  {
    var value := " \"" + keyType + "\"";
    PrefixBeforeKeyType();
    KeyTypeShape(keyType, value);
    ExtractBeforeBrace(TestPrefix, "api_key_type", value, "");
    StripQuotedValue(keyType);
  }

  lemma KeyTypeShape(keyType: string, value: string)
    requires value == " \"" + keyType + "\""
    ensures KeysAnswer(keyType) == TestPrefix + Quoted("api_key_type") + ":" + value + "}" + ""
  {
    assert "\"api_key_type\": \"" + keyType + "\"}" == Quoted("api_key_type") + ":" + value + "}";
  }

  /** A value written ` "v"` reads as v. */
  lemma StripQuotedValue(v: string)
    requires '"' !in v && ' ' !in v
    ensures Text.StripQuotesAndSpaces(" \"" + v + "\"") == v
  {
    assert " \"" + v + "\"" == " \"" + (v + "\"");
    Text.StripConcat(" \"", v + "\"");
    Text.StripConcat(v, "\"");
    Text.StripClean(v);
    Text.StripCounts(" \"");
    assert multiset(" \"")['"' := 0][' ' := 0] == multiset{};
    Text.StripCounts("\"");
    assert multiset("\"")['"' := 0][' ' := 0] == multiset{};
  }

  /** The quoted name "api_key_type" does not start inside the prefix: its
      'k' never occurs there, and the prefix ends in `789, `. */
  lemma PrefixBeforeKeyType()
    ensures forall j :: 0 <= j < |TestPrefix| ==> !Text.OccursAt(TestPrefix + Quoted("api_key_type"), Quoted("api_key_type"), j)
  {
    assert Quoted("api_key_type")[5] == 'k';
    assert 'k' !in TestPrefix;
    EarlierOccurrences(TestPrefix, Quoted("api_key_type"), 5);
  }

  /** t cannot start inside pre when some character t[i] never occurs in
      pre and none of the last i characters of pre is t[0]. */
  lemma EarlierOccurrences(pre: string, t: string, i: nat)
    requires 0 < i < |t| && t[i] !in pre
    requires forall j :: 0 <= j < |pre| && |pre| <= j + i ==> pre[j] != t[0]
    ensures forall j :: 0 <= j < |pre| ==> !Text.OccursAt(pre + t, t, j)
  {
    forall j | 0 <= j < |pre| ensures !Text.OccursAt(pre + t, t, j) {
      if j + i < |pre| {
        assert (pre + t)[j + i] == pre[j + i] != t[i];
      } else {
        assert (pre + t)[j] == pre[j] != t[0];
      }
    }
  }

  lemma NameInShape(response: string, pre: string, name: string, value: string, stop: char, post: string, colon: nat, end: nat)
    requires response == pre + Quoted(name) + ":" + value + [stop] + post
    requires colon == |pre| + |Quoted(name)| && end == colon + 1 + |value|
    requires forall j :: 0 <= j < |pre| ==> !Text.OccursAt(pre + Quoted(name), Quoted(name), j)
    requires ':' !in name
    ensures Text.FindText(response, Quoted(name), 0) == Some(|pre|)
    ensures Text.FindChar(response, ':', |pre|) == Some(colon)
  {
    ShapeFacts(response, pre, name, value, stop, post, colon, end);
    NameFound(response, pre, name, ":" + value + [stop] + post, colon);
  }

  lemma ValueInShape(response: string, pre: string, name: string, value: string, post: string, colon: nat, end: nat)
    requires response == pre + Quoted(name) + ":" + value + "," + post
    requires colon == |pre| + |Quoted(name)| && end == colon + 1 + |value|
    requires ',' !in value
    ensures Text.FindChar(response, ',', colon + 1) == Some(end)
    ensures response[colon + 1..end] == value
  {
    ShapeFacts(response, pre, name, value, ',', post, colon, end);
    StopAfterValue(response, colon + 1, value, ',');
  }

  /** What follows the ':' of `pre "name": value stop post`. */
  lemma ShapeTail(response: string, pre: string, name: string, value: string, stop: char, post: string, colon: nat)
    requires response == pre + Quoted(name) + ":" + value + [stop] + post
    requires colon == |pre| + |Quoted(name)|
    ensures colon < |response| && response[colon + 1..] == value + [stop] + post
  {
    var head := pre + Quoted(name) + ":";
    assert response == head + (value + [stop] + post);
  }

  lemma NameFound(response: string, pre: string, name: string, rest: string, colon: nat)
    requires response == pre + Quoted(name) + rest
    requires colon == |pre| + |Quoted(name)| && colon < |response| && response[colon] == ':'
    requires response[|pre|..colon] == Quoted(name)
    requires forall j :: 0 <= j < |pre| ==> !Text.OccursAt(pre + Quoted(name), Quoted(name), j)
    requires ':' !in name
    ensures Text.FindText(response, Quoted(name), 0) == Some(|pre|)
    ensures Text.FindChar(response, ':', |pre|) == Some(colon)
  {
    FirstOccurrence(pre, Quoted(name), rest);
    ColonAfterName(response, pre, name, colon);
  }

  /** Where the pieces of `pre "name": value stop post` sit. */
  lemma ShapeFacts(response: string, pre: string, name: string, value: string, stop: char, post: string, colon: nat, end: nat)
    requires response == pre + Quoted(name) + ":" + value + [stop] + post
    requires colon == |pre| + |Quoted(name)| && end == colon + 1 + |value|
    ensures response == pre + Quoted(name) + (":" + value + [stop] + post)
    ensures end < |response| && response[colon] == ':' && response[|pre|..colon] == Quoted(name)
    ensures response[colon + 1..end + 1] == value + [stop]
    ensures response[colon + 1..end] == value
  {
    assert response == (pre + Quoted(name)) + ":" + (value + [stop]) + post;
  }

  /** The extraction spelled out by positions: the quoted name at `at`,
      the first ':' after it at `colon`, the first ',' after that at
      `end`. */
  lemma ExtractAt(response: string, name: string, at: nat, colon: nat, end: nat)
    requires |response| < Npos
    requires Text.FindText(response, Quoted(name), 0) == Some(at)
    requires Text.FindChar(response, ':', at) == Some(colon)
    requires Text.FindChar(response, ',', colon + 1) == Some(end)
    ensures colon + 1 <= end <= |response|
    ensures ExtractField(response, name) == Some(Text.StripQuotesAndSpaces(response[colon + 1..end]))
  {
    assert ValueEnd(response, colon + 1) == end;
    ExtractUpTo(response, name, at, colon, end);
  }

  /** The same with the value's end given as ValueEnd computes it, so it
      covers a value ended by '}' as well as by ','. */
  lemma ExtractUpTo(response: string, name: string, at: nat, colon: nat, end: nat)
    requires |response| < Npos
    requires Text.FindText(response, Quoted(name), 0) == Some(at)
    requires Text.FindChar(response, ':', at) == Some(colon)
    requires ValueEnd(response, colon + 1) == end && colon + 1 <= end <= |response|
    ensures ExtractField(response, name) == Some(Text.StripQuotesAndSpaces(response[colon + 1..end]))
  {
    NoWrap(colon + 1);
    assert ValueStart(response, at) == colon + 1;
    NoWrap(end - (colon + 1));
    var value := Substr(response, colon + 1, end - (colon + 1));
    assert value == response[colon + 1..end];
    var start := ValueStart(response, at);
    var count := SizeT(ValueEnd(response, start) - start);
    assert count == end - (colon + 1);
    assert RawValue(response, at) == value;
  }

  /** npos + 1 wraps to 0. */
  lemma WrappedStart(response: string, at: nat)
    requires Text.FindChar(response, ':', at).None?
    ensures ValueStart(response, at) == 0
  {
    assert Position(Text.FindChar(response, ':', at)) + 1 == SizeModulus;
  }

  /** Below 2^64 size_t arithmetic does not wrap. */
  lemma NoWrap(x: int)
    requires 0 <= x < SizeModulus
    ensures x % SizeModulus == x
  {
  }

  /** The first occurrence of t in pre + t + rest is at |pre| when t does not
      occur earlier. */
  lemma FirstOccurrence(pre: string, t: string, rest: string)
    requires forall j :: 0 <= j < |pre| ==> !Text.OccursAt(pre + t, t, j)
    ensures Text.FindText(pre + t + rest, t, 0) == Some(|pre|)
  {
    var s := pre + t + rest;
    assert s == (pre + t) + rest;
    assert Text.OccursAt(s, t, |pre|) by {
      assert s[|pre|..|pre| + |t|] == t;
    }
    forall j | 0 <= j < |pre| ensures !Text.OccursAt(s, t, j) {
      assert j + |t| <= |pre + t|;
      assert s[j..j + |t|] == (pre + t)[j..j + |t|];
      assert !Text.OccursAt(pre + t, t, j);
    }
  }

  lemma ColonAfterName(response: string, pre: string, name: string, colon: nat)
    requires ':' !in name && colon == |pre| + |Quoted(name)|
    requires colon < |response| && response[colon] == ':'
    requires response[|pre|..colon] == Quoted(name)
    ensures Text.FindChar(response, ':', |pre|) == Some(colon)
  {
    forall j | |pre| <= j < colon ensures response[j] != ':' {
      assert response[j] == response[|pre|..colon][j - |pre|];
    }
  }

  lemma StopAfterValue(response: string, start: nat, value: string, stop: char)
    requires stop !in value && start + |value| < |response|
    requires response[start..start + |value| + 1] == value + [stop]
    ensures Text.FindChar(response, stop, start) == Some(start + |value|)
  {
    assert response[start + |value|] == (value + [stop])[|value|];
    forall j | start <= j < start + |value| ensures response[j] != stop {
      assert response[j] == (value + [stop])[j - start];
    }
  }

  /** In a tail `value stop post` with no stop in the value, the first stop
      ends the value. */
  lemma StopInTail(response: string, start: nat, value: string, stop: char, post: string)
    requires start <= |response| && response[start..] == value + [stop] + post && stop !in value
    ensures Text.FindChar(response, stop, start) == Some(start + |value|)
    ensures response[start..start + |value|] == value
  {
    assert response[start + |value|] == (value + [stop] + post)[|value|];
    forall j | start <= j < start + |value| ensures response[j] != stop {
      assert response[j] == (value + [stop] + post)[j - start];
    }
    assert response[start..start + |value|] == response[start..][..|value|];
  }

  /** With no c anywhere in a tail `value stop post`, c is not found. */
  lemma NotInTail(response: string, start: nat, value: string, stop: char, post: string, c: char)
    requires start <= |response| && response[start..] == value + [stop] + post
    requires c !in value && c != stop && c !in post
    ensures Text.FindChar(response, c, start).None?
  {
    forall j | start <= j < |response| ensures response[j] != c {
      var k := j - start;
      assert response[j] == (value + [stop] + post)[k];
      if k > |value| {
        assert (value + [stop] + post)[k] == post[k - |value| - 1];
      }
    }
  }

  /** The size_t wrap: when no ':' follows the quoted name, the value is
      read from the very start of the response, up to its first ','. */
  lemma ExtractWithoutColon(response: string, name: string, e: nat)
    requires |response| < Npos
    requires Text.FindText(response, Quoted(name), 0).Some?
    requires Text.FindChar(response, ':', Text.FindText(response, Quoted(name), 0).value).None?
    requires Text.FindChar(response, ',', 0) == Some(e)
    ensures ExtractField(response, name) == Some(Text.StripQuotesAndSpaces(response[..e]))
  {
    var at := Text.FindText(response, Quoted(name), 0).value;
    RawWrapped(response, at, e);
  }

  lemma RawWrapped(response: string, at: nat, e: nat)
    requires |response| < Npos
    requires Text.FindChar(response, ':', at).None?
    requires Text.FindChar(response, ',', 0) == Some(e)
    ensures e <= |response| && RawValue(response, at) == response[..e]
  {
    WrappedStart(response, at);
    assert ValueEnd(response, 0) == e;
    NoWrap(e);
    assert Substr(response, 0, e) == response[..e];
  }

  // ---------------------------------------------------------------------
  // _check_an_api_key
  // ---------------------------------------------------------------------

  /** The three maps the key checks fill, each keyed by the API key. */
  datatype KeyMaps = KeyMaps(versions: StdMap.Entries, lastChecked: StdMap.Entries, types: StdMap.Entries)

  predicate SortedMaps(maps: KeyMaps) {
    StdMap.Sorted(maps.versions) && StdMap.Sorted(maps.lastChecked) && StdMap.Sorted(maps.types)
  }

  /** The GET of the keys endpoint: the key header, no parameters. */
  function KeyCheckArgs(key: string): GetArgs
  {
    GetArgs(KeysUrl, key, "", [])
  }

  /** Stores each extracted field under the key; an absent field leaves its
      map as it was. */
  function RecordFields(maps: KeyMaps, key: string, response: string): KeyMaps
  {
    KeyMaps(StdMap.Assign(maps.versions, (key, ExtractField(response, "api_version"))),
            StdMap.Assign(maps.lastChecked, (key, ExtractField(response, "time_stamp"))),
            StdMap.Assign(maps.types, (key, ExtractField(response, "api_key_type"))))
  }

  /** _check_an_api_key: a failed request throws; otherwise the fields are
      recorded and the check succeeds (the source returns true). */
  function CheckAnApiKey(send: CppTransport, escape: Escape, maps: KeyMaps, key: string): (r: Result<KeyMaps>)
    ensures r.Ok? <==> SendGet(send, KeyCheckArgs(key), escape).Ok?
  {
    var response :- SendGet(send, KeyCheckArgs(key), escape);
    Ok(RecordFields(maps, key, response))
  }

  /** After a successful check each map holds the extracted field under the
      key when the field occurs, keeps its old entry for the key when it
      does not, and is unchanged under every other key; the maps stay
      sorted. */
  lemma CheckRecords(send: CppTransport, escape: Escape, maps: KeyMaps, key: string, other: string)
    requires SortedMaps(maps)
    requires CheckAnApiKey(send, escape, maps, key).Ok?
    ensures var response := SendGet(send, KeyCheckArgs(key), escape).value;
            var m := CheckAnApiKey(send, escape, maps, key).value;
            SortedMaps(m) &&
            StdMap.Get(m.versions, key) ==
              (if ExtractField(response, "api_version").Some? then ExtractField(response, "api_version")
               else StdMap.Get(maps.versions, key)) &&
            StdMap.Get(m.lastChecked, key) ==
              (if ExtractField(response, "time_stamp").Some? then ExtractField(response, "time_stamp")
               else StdMap.Get(maps.lastChecked, key)) &&
            StdMap.Get(m.types, key) ==
              (if ExtractField(response, "api_key_type").Some? then ExtractField(response, "api_key_type")
               else StdMap.Get(maps.types, key))
    ensures var m := CheckAnApiKey(send, escape, maps, key).value;
            other != key ==>
              StdMap.Get(m.versions, other) == StdMap.Get(maps.versions, other) &&
              StdMap.Get(m.lastChecked, other) == StdMap.Get(maps.lastChecked, other) &&
              StdMap.Get(m.types, other) == StdMap.Get(maps.types, other)
  {
    var response := SendGet(send, KeyCheckArgs(key), escape).value;
    var v := ExtractField(response, "api_version");
    var t := ExtractField(response, "time_stamp");
    var k := ExtractField(response, "api_key_type");
    AssignFacts(maps.versions, key, v, other);
    AssignFacts(maps.lastChecked, key, t, other);
    AssignFacts(maps.types, key, k, other);
  }

  lemma AssignFacts(m: StdMap.Entries, key: string, v: Option<string>, other: string)
    requires StdMap.Sorted(m)
    ensures StdMap.Sorted(StdMap.Assign(m, (key, v)))
    ensures StdMap.Get(StdMap.Assign(m, (key, v)), key) == if v.Some? then v else StdMap.Get(m, key)
    ensures other != key ==> StdMap.Get(StdMap.Assign(m, (key, v)), other) == StdMap.Get(m, other)
  {
    if v.Some? {
      StdMap.InsertSorted(m, key, v.value);
      StdMap.GetInsert(m, key, v.value, key);
      StdMap.GetInsert(m, key, v.value, other);
    }
  }

  // ---------------------------------------------------------------------
  // The constructor
  // ---------------------------------------------------------------------

  datatype CppClient = CppClient(readKey: string, writeKey: string, addresses: seq<string>, maps: KeyMaps)

  /** The address list the constructor hands to the local facade. */
  function AddressList(address: string): seq<string>
  {
    if address == "" then [] else [address]
  }

  /** The maps after checking every non-empty key, read key first. */
  function CheckKeys(send: CppTransport, escape: Escape, readKey: string, writeKey: string): Result<KeyMaps>
  {
    var empty := KeyMaps([], [], []);
    var afterRead :- if readKey != "" then CheckAnApiKey(send, escape, empty, readKey) else Ok(empty);
    if writeKey != "" then CheckAnApiKey(send, escape, afterRead, writeKey) else Ok(afterRead)
  }

  /** No failure of the key checks, and neither key-type failure, carries
      the message of the combination check. */
  lemma CheckKeysMessages(send: CppTransport, escape: Escape, readKey: string, writeKey: string)
    ensures CheckKeys(send, escape, readKey, writeKey) != Err(ApiError(Client.CombinationMessage))
    ensures Client.NotReadKeyMessage != Client.CombinationMessage
    ensures Client.NotWriteKeyMessage != Client.CombinationMessage
  {
    assert Client.NotReadKeyMessage[7] != Client.CombinationMessage[7];
    assert Client.NotWriteKeyMessage[7] != Client.CombinationMessage[7];
    if readKey != "" {
      ReceiveMessages(send(GetRequest(KeyCheckArgs(readKey), escape)));
    }
    if writeKey != "" {
      ReceiveMessages(send(GetRequest(KeyCheckArgs(writeKey), escape)));
    }
  }

  /** The helpers' own messages start with "CURL", "HTTP" or "Unknown". */
  lemma ReceiveMessages(outcome: Outcome)
    ensures CppReceive(outcome) != Err(ApiError(Client.CombinationMessage))
  {
    assert Client.CombinationMessage[0] == 'E';
    if outcome.Answered? {
      Status.CppClassification(outcome.status);
    }
  }

  /** The type checks that follow the key checks: operator[] yields "" for
      a key the response gave no type, which is never READ or WRITE. */
  function Accept(maps: KeyMaps, readKey: string, writeKey: string, address: string): (r: Result<CppClient>)
    ensures r.Ok? <==> (readKey != "" ==> StdMap.Get(maps.types, readKey) == Some("READ")) &&
                       (writeKey != "" ==> StdMap.Get(maps.types, writeKey) == Some("WRITE"))
    ensures r.Ok? ==> r.value == CppClient(readKey, writeKey, AddressList(address), maps)
    ensures r.Err? ==> r.error in {ApiError(Client.NotReadKeyMessage), ApiError(Client.NotWriteKeyMessage)}
  {
    if readKey != "" && StdMap.Index(maps.types, readKey) != "READ" then Err(ApiError(Client.NotReadKeyMessage))
    else if writeKey != "" && StdMap.Index(maps.types, writeKey) != "WRITE" then Err(ApiError(Client.NotWriteKeyMessage))
    else Ok(CppClient(readKey, writeKey, AddressList(address), maps))
  }

  /** PurpleAirAPI::PurpleAirAPI. */
  function NewClient(send: CppTransport, escape: Escape, readKey: string, writeKey: string, address: string)
    : (r: Result<CppClient>)
    ensures readKey == "" && writeKey == "" && address == "" <==> r == Err(ApiError(Client.CombinationMessage))
    ensures readKey == "" && writeKey == "" && address != "" ==> r == Ok(CppClient("", "", [address], KeyMaps([], [], [])))
    ensures r.Ok? ==> r.value.readKey == readKey && r.value.writeKey == writeKey &&
                      r.value.addresses == AddressList(address)
    ensures r.Ok? && readKey != "" ==> StdMap.Get(r.value.maps.types, readKey) == Some("READ")
    ensures r.Ok? && writeKey != "" ==> StdMap.Get(r.value.maps.types, writeKey) == Some("WRITE")
  {
    if readKey == "" && writeKey == "" && address == "" then Err(ApiError(Client.CombinationMessage))
    else
      CheckKeysMessages(send, escape, readKey, writeKey);
      var maps :- CheckKeys(send, escape, readKey, writeKey);
      Accept(maps, readKey, writeKey, address)
  }

  /** The response of the keys endpoint to one key. */
  function KeyResponse(send: CppTransport, escape: Escape, key: string): Result<string>
  {
    SendGet(send, KeyCheckArgs(key), escape)
  }

  /** What the check of one key demands: a non-empty key must be answered
      and the answer must report the expected type. */
  predicate KeyPasses(send: CppTransport, escape: Escape, key: string, expected: string)
  {
    key != "" ==>
      KeyResponse(send, escape, key).Ok? &&
      ExtractField(KeyResponse(send, escape, key).value, "api_key_type") == Some(expected)
  }

  /** With two different keys, the client is built exactly when each
      non-empty key is answered and reported with its own type, and the
      maps then hold, under each checked key, exactly what was extracted
      from that key's own response. A failed read-key request is the error
      reported, whatever happens to the write key. */
  lemma DistinctKeys(send: CppTransport, escape: Escape, readKey: string, writeKey: string, address: string)
    requires readKey != writeKey
    requires readKey != "" || writeKey != ""
    ensures var r := NewClient(send, escape, readKey, writeKey, address);
            r.Ok? <==> KeyPasses(send, escape, readKey, "READ") && KeyPasses(send, escape, writeKey, "WRITE")
    ensures var r := NewClient(send, escape, readKey, writeKey, address);
            forall key | key in {readKey, writeKey} && key != "" && r.Ok? ::
              var response := KeyResponse(send, escape, key).value;
              StdMap.Get(r.value.maps.versions, key) == ExtractField(response, "api_version") &&
              StdMap.Get(r.value.maps.lastChecked, key) == ExtractField(response, "time_stamp") &&
              StdMap.Get(r.value.maps.types, key) == ExtractField(response, "api_key_type")
    ensures readKey != "" && KeyResponse(send, escape, readKey).Err? ==>
              NewClient(send, escape, readKey, writeKey, address) == Err(KeyResponse(send, escape, readKey).error)
  {
    var empty := KeyMaps([], [], []);
    var m1 := empty;
    if readKey != "" && KeyResponse(send, escape, readKey).Ok? {
      CheckRecords(send, escape, empty, readKey, writeKey);
      m1 := CheckAnApiKey(send, escape, empty, readKey).value;
    }
    if writeKey != "" && (readKey == "" || KeyResponse(send, escape, readKey).Ok?) && KeyResponse(send, escape, writeKey).Ok? {
      CheckRecords(send, escape, m1, writeKey, readKey);
    }
  }

  /** The same key given as both read and write key is always rejected: one
      response cannot report both types. */
  lemma SameKeyRejected(send: CppTransport, escape: Escape, key: string, address: string)
    requires key != ""
    ensures NewClient(send, escape, key, key, address).Err?
  {
    var empty := KeyMaps([], [], []);
    if KeyResponse(send, escape, key).Ok? {
      CheckRecords(send, escape, empty, key, key);
      var m1 := CheckAnApiKey(send, escape, empty, key).value;
      CheckRecords(send, escape, m1, key, key);
    }
  }
}

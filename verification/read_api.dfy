/** The Python read facade (purpleair_api/PurpleAirReadAPI.py). Each request
    method builds the arguments of send_url_get_request: a URL, the
    instance's read key, a first-parameter separator and an ordered
    dictionary of optional parameters. The lemmas state the URL each one
    ends up sending to. */
module ReadApi {
  import opened Wrappers
  import Text
  import Query
  import opened Helpers

  /** The optional filters shared by the multi-sensor and members queries,
      in the order the source lists them. */
  datatype SensorFilters = SensorFilters(
    locationType: Value, readKeys: Value, showOnly: Value, modifiedSince: Value,
    maxAge: Value, nwlng: Value, nwlat: Value, selng: Value, selat: Value)

  const NoFilters: SensorFilters :=
    SensorFilters(PyNone, PyNone, PyNone, PyNone, PyNone, PyNone, PyNone, PyNone, PyNone)

  function FilterEntries(f: SensorFilters): seq<(string, Value)>
  {
    [("location_type", f.locationType), ("read_keys", f.readKeys), ("show_only", f.showOnly),
     ("modified_since", f.modifiedSince), ("max_age", f.maxAge), ("nwlng", f.nwlng),
     ("nwlat", f.nwlat), ("selng", f.selng), ("selat", f.selat)]
  }

  function RequestSensorData(key: Value, sensorIndex: Value, readKey: Value, fields: Value): GetCall
  {
    GetCall(Some(BaseUrl + "sensors/" + Show(sensorIndex)), key, PyStr("?"),
            Some(Params([("read_key", readKey), ("fields", fields)])))
  }

  function RequestMultipleSensorsData(key: Value, fields: Value, filters: SensorFilters): GetCall
  {
    GetCall(Some(BaseUrl + "sensors/" + "?fields=" + Show(fields)), key, PyStr("&"),
            Some(Params(FilterEntries(filters))))
  }

  /** The history path segment: `/history/csv` when the csv flag is truthy. */
  function HistoryPath(csvDataFormat: Value): string
  {
    if Truthy(csvDataFormat) then "/history/csv" else "/history"
  }

  /** The source sends the end timestamp twice, under its own name and
      again as `modified_since`. */
  function HistoryEntries(readKey: Value, privacy: Value, startTimestamp: Value,
                          endTimestamp: Value, average: Value): seq<(string, Value)>
  {
    [("read_key", readKey), ("privacy", privacy), ("start_timestamp", startTimestamp),
     ("end_timestamp", endTimestamp), ("modified_since", endTimestamp), ("average", average)]
  }

  function RequestSensorHistoricData(key: Value, sensorIndex: Value, fields: Value, csvDataFormat: Value,
                                     readKey: Value, privacy: Value, startTimestamp: Value,
                                     endTimestamp: Value, average: Value): GetCall
  {
    GetCall(Some(BaseUrl + "sensors/" + Show(sensorIndex) + HistoryPath(csvDataFormat) + "?fields=" + Show(fields)),
            key, PyStr("&"),
            Some(Params(HistoryEntries(readKey, privacy, startTimestamp, endTimestamp, average))))
  }

  function RequestGroupDetailData(key: Value, groupId: Value): GetCall
  {
    GetCall(Some(BaseUrl + "groups/" + Show(groupId)), key, PyNone, None)
  }

  function RequestGroupListData(key: Value): GetCall
  {
    GetCall(Some(BaseUrl + "groups/"), key, PyNone, None)
  }

  function RequestMemberData(key: Value, groupId: Value, memberId: Value, fields: Value): GetCall
  {
    GetCall(Some(BaseUrl + "groups/" + Show(groupId) + "/members/" + Show(memberId)), key, PyStr("?"),
            Some(Params([("fields", fields)])))
  }

  function RequestMemberHistoricData(key: Value, groupId: Value, memberId: Value, fields: Value,
                                     startTimestamp: Value, endTimestamp: Value, average: Value): GetCall
  {
    GetCall(Some(BaseUrl + "groups/" + Show(groupId) + "/members/" + Show(memberId) + "/history/?fields=" + Show(fields)),
            key, PyStr("&"),
            Some(Params([("start_timestamp", startTimestamp), ("end_timestamp", endTimestamp), ("average", average)])))
  }

  function RequestMembersData(key: Value, groupId: Value, fields: Value, filters: SensorFilters): GetCall
  {
    GetCall(Some(BaseUrl + "groups/" + Show(groupId) + "/members?fields=" + Show(fields)), key, PyStr("&"),
            Some(Params(FilterEntries(filters))))
  }

  // ---------------------------------------------------------------------
  // The URLs sent
  // ---------------------------------------------------------------------

  /** The text `&name=value` for each present entry, in order. */
  function AmpQuery(entries: seq<(string, Value)>): string
  {
    Query.AmpEach(Query.Present(Params(entries)))
  }

  /** What one dictionary entry contributes after a lead `&`: nothing for a
      None value, `&name=str(value)` otherwise. */
  function EntryText(e: (string, Value)): string
  {
    if e.1.PyNone? then "" else "&" + e.0 + "=" + Show(e.1)
  }

  /** The entries' contributions read left to right: a reference rendering
      that looks at one entry at a time. */
  function EntriesText(entries: seq<(string, Value)>): string
  {
    if |entries| == 0 then "" else EntryText(entries[0]) + EntriesText(entries[1..])
  }

  /** The helper's counting loop with lead `&` renders every entry on its
      own: None entries vanish, each other entry becomes `&name=value`, in
      the dictionary's order. */
  lemma {:induction false} AmpQueryIsEntriesText(entries: seq<(string, Value)>)
    ensures AmpQuery(entries) == EntriesText(entries)
  {
    if |entries| > 0 {
      AmpQueryCons(entries[0], entries[1..]);
      assert entries == [entries[0]] + entries[1..];
      AmpQueryIsEntriesText(entries[1..]);
    }
  }

  lemma AmpQueryCons(e: (string, Value), rest: seq<(string, Value)>)
    ensures AmpQuery([e] + rest) == EntryText(e) + AmpQuery(rest)
  {
    var p := Param(e.0, e.1);
    assert Params([e] + rest) == [p] + Params(rest) by {
      assert ([e] + rest)[1..] == rest;
    }
    Query.PresentConcat([p], Params(rest));
    var head := Query.Present([p]);
    assert [p][1..] == [];
    Query.AmpEachConcat(head, Query.Present(Params(rest)));
    if !e.1.PyNone? {
      assert head == [(e.0, Show(e.1))];
      assert head[..0] == [];
    }
  }

  lemma {:induction false} EntriesTextConcat(a: seq<(string, Value)>, b: seq<(string, Value)>)
    ensures EntriesText(a + b) == EntriesText(a) + EntriesText(b)
  {
    if |a| == 0 {
      assert a + b == b;
    } else {
      assert (a + b)[0] == a[0];
      assert (a + b)[1..] == a[1..] + b;
      EntriesTextConcat(a[1..], b);
      Text.ConcatAssoc(EntryText(a[0]), EntriesText(a[1..]), EntriesText(b));
    }
  }

  lemma EntriesTextThree(x: (string, Value), y: (string, Value), z: (string, Value))
    ensures EntriesText([x, y, z]) == EntryText(x) + EntryText(y) + EntryText(z)
  {
    assert [x, y, z][1..] == [y, z];
    assert [y, z][1..] == [z];
    assert [z][1..] == [];
    assert EntriesText([z]) == EntryText(z) + "";
    assert EntriesText([y, z]) == EntryText(y) + EntryText(z);
  }

  /** All-None entries add nothing. */
  lemma {:induction false} EntriesTextNone(entries: seq<(string, Value)>)
    requires forall k :: 0 <= k < |entries| ==> entries[k].1.PyNone?
    ensures EntriesText(entries) == ""
  {
    if |entries| > 0 {
      EntriesTextNone(entries[1..]);
    }
  }

  /** Lead `&`: the URL is the fixed part followed by `&name=value` for each
      entry that is not None, in the dictionary's order. */
  lemma AmpCallUrl(url: string, key: Value, entries: seq<(string, Value)>)
    ensures BuildUrl(GetCall(Some(url), key, PyStr("&"), Some(Params(entries)))) ==
            Ok(Text.StripQuotesAndSpaces(url + EntriesText(entries)))
  {
    Query.JoinedAmpIsAmpEach(Query.Present(Params(entries)));
    AmpQueryIsEntriesText(entries);
  }

  /** The optional part request_sensor_data appends: nothing without
      optional arguments; otherwise `?` before the first present one, with
      `read_key` before `fields`. */
  function SensorDataQuery(readKey: Value, fields: Value): string
  {
    if readKey.PyNone? && fields.PyNone? then ""
    else if fields.PyNone? then "?" + "read_key" + "=" + Show(readKey)
    else if readKey.PyNone? then "?" + "fields" + "=" + Show(fields)
    else "?read_key=" + Show(readKey) + "&fields=" + Show(fields)
  }

  lemma SensorDataQueryText(key: Value, sensorIndex: Value, readKey: Value, fields: Value)
    ensures QueryText(RequestSensorData(key, sensorIndex, readKey, fields)) == SensorDataQuery(readKey, fields)
  {
    var ps := Params([("read_key", readKey), ("fields", fields)]);
    assert ps == [Param("read_key", readKey), Param("fields", fields)];
    Query.PresentPair(Param("read_key", readKey), Param("fields", fields));
    var r := ("read_key", Show(readKey));
    var f := ("fields", Show(fields));
    if readKey.PyNone? && fields.PyNone? {
    } else if fields.PyNone? {
      JoinedLiteral1(r.0, r.1);
    } else if readKey.PyNone? {
      assert Query.Present(ps) == [f];
      JoinedLiteral1(f.0, f.1);
    } else {
      JoinedLiteral2(r.1, f.1);
    }
  }

  lemma JoinedLiteral1(name: string, v: string)
    ensures Query.Joined([(name, v)], "?") == "?" + name + "=" + v
  {
    Query.JoinedOne((name, v), "?");
  }

  lemma JoinedLiteral2(r: string, f: string)
    ensures Query.Joined([("read_key", r), ("fields", f)], "?") == "?read_key=" + r + "&fields=" + f
  {
    Query.JoinedTwo(("read_key", r), ("fields", f), "?");
    assert "?" + "read_key" + "=" == "?read_key=";
    assert "&" + "fields" + "=" == "&fields=";
  }

  /** request_sensor_data sends to the sensor's URL followed by
      SensorDataQuery, stripped; with no optional arguments there is no
      trailing `?`. */
  lemma SensorDataUrl(key: Value, sensorIndex: Value, readKey: Value, fields: Value)
    ensures BuildUrl(RequestSensorData(key, sensorIndex, readKey, fields)) ==
            Ok(Text.StripQuotesAndSpaces(BaseUrl + "sensors/" + Show(sensorIndex) + SensorDataQuery(readKey, fields)))
  {
    var call := RequestSensorData(key, sensorIndex, readKey, fields);
    SensorDataQueryText(key, sensorIndex, readKey, fields);
    BuildUrlIs(call, SensorDataQuery(readKey, fields));
  }


  /** The URL the tests pin for request_sensor_data(1234, 56789,
      "test1, test2, test3"): the spaces in the fields list are dropped. */
  lemma SensorDataExample(key: Value, sensorIndex: Value, readKey: Value, fields: Value)
    requires sensorIndex == PyInt(1234) && readKey == PyInt(56789) && fields == PyStr("test1, test2, test3")
    ensures BuildUrl(RequestSensorData(key, sensorIndex, readKey, fields)) ==
            Ok(BaseUrl + "sensors/1234?read_key=56789" + "&fields=test1," + "test2," + "test3")
  {
    SensorDataUrl(key, sensorIndex, readKey, fields);
    ExampleShown(sensorIndex, readKey, fields);
    assert SensorDataQuery(readKey, fields) == "?read_key=" + "56789" + "&fields=" + "test1, test2, test3";
    ExampleStripped(BaseUrl, "sensors/1234?read_key=56789", "&fields=test1,", "test2,", "test3");
  }

  // The lemmas from here to SpaceDropped are the steps of SensorDataExample,
  // each a lemma of its own so that every proof obligation stays small.

  lemma ExampleShown(sensorIndex: Value, readKey: Value, fields: Value)
    requires sensorIndex == PyInt(1234) && readKey == PyInt(56789) && fields == PyStr("test1, test2, test3")
    ensures Show(sensorIndex) == "1234" && Show(readKey) == "56789" && Show(fields) == "test1, test2, test3"
  {
    assert Text.IntToDecimal(1234) == "1234";
    assert Text.IntToDecimal(56789) == "56789";
  }

  lemma ExampleStripped(u: string, a: string, b: string, c: string, d: string)
    requires u == BaseUrl && a == "sensors/1234?read_key=56789" && b == "&fields=test1,"
    requires c == "test2," && d == "test3"
    ensures Text.StripQuotesAndSpaces(u + "sensors/" + "1234" + ("?read_key=" + "56789" + "&fields=" + "test1, test2, test3")) ==
            u + a + b + c + d
  {
    ExampleSplit(u, a, b, c, d);
    BaseUrlClean();
    ExamplePiecesClean(a, b, c, d);
    StripSpacedPieces(u, a, b, c, d);
  }

  lemma ExampleSplit(u: string, a: string, b: string, c: string, d: string)
    requires a == "sensors/1234?read_key=56789" && b == "&fields=test1,"
    requires c == "test2," && d == "test3"
    ensures u + "sensors/" + "1234" + ("?read_key=" + "56789" + "&fields=" + "test1, test2, test3") ==
            u + a + b + (" " + c) + (" " + d)
  {
    assert "test1, test2, test3" == "test1," + (" " + c) + (" " + d);
    assert a == "sensors/" + "1234" + ("?read_key=" + "56789");
    assert b == "&fields=" + "test1,";
    SplitRegroup(u, "sensors/", "1234", "?read_key=" + "56789", "&fields=", "test1,", " " + c, " " + d);
  }

  lemma SplitRegroup(u: string, p: string, q: string, r: string, s: string, t: string, x: string, y: string)
    ensures u + p + q + (r + s + (t + x + y)) == u + (p + q + r) + (s + t) + x + y
  {
  }

  /** Clean pieces survive; a space before a clean piece is dropped. */
  lemma StripSpacedPieces(u: string, a: string, b: string, c: string, d: string)
    requires Text.StripQuotesAndSpaces(u) == u && Text.StripQuotesAndSpaces(a) == a
    requires Text.StripQuotesAndSpaces(b) == b
    requires '"' !in c && ' ' !in c && '"' !in d && ' ' !in d
    ensures Text.StripQuotesAndSpaces(u + a + b + (" " + c) + (" " + d)) == u + a + b + c + d
  {
    Text.StripConcat(u + a + b + (" " + c), " " + d);
    Text.StripConcat(u + a + b, " " + c);
    Text.StripConcat(u + a, b);
    Text.StripConcat(u, a);
    SpaceDropped(c);
    SpaceDropped(d);
  }

  lemma ExamplePiecesClean(a: string, b: string, c: string, d: string)
    requires a == "sensors/1234?read_key=56789" && b == "&fields=test1,"
    requires c == "test2," && d == "test3"
    ensures Text.StripQuotesAndSpaces(a) == a && Text.StripQuotesAndSpaces(b) == b
    ensures '"' !in c && ' ' !in c && '"' !in d && ' ' !in d
  {
    CleanPiece(a);
    CleanPiece(b);
  }

  lemma CleanPiece(w: string)
    requires w == "sensors/1234?read_key=56789" || w == "&fields=test1,"
    ensures Text.StripQuotesAndSpaces(w) == w
  {
    assert '"' !in w && ' ' !in w;
    Text.StripClean(w);
  }

  lemma SpaceDropped(w: string)
    requires '"' !in w && ' ' !in w
    ensures Text.StripQuotesAndSpaces(" " + w) == w
  {
    Text.StripConcat(" ", w);
    Text.StripClean(w);
  }

  /** request_multiple_sensors_data: the fields are always in the URL; each
      given filter follows as `&name=value`, in the source's order. */
  lemma MultipleSensorsUrl(key: Value, fields: Value, filters: SensorFilters)
    ensures BuildUrl(RequestMultipleSensorsData(key, fields, filters)) ==
            Ok(Text.StripQuotesAndSpaces(BaseUrl + "sensors/" + "?fields=" + Show(fields) +
                                         EntriesText(FilterEntries(filters))))
  {
    AmpCallUrl(BaseUrl + "sensors/" + "?fields=" + Show(fields), key, FilterEntries(filters));
  }

  /** Without filters, nothing follows the fields. */
  lemma MultipleSensorsNoFilters(key: Value, fields: Value)
    ensures BuildUrl(RequestMultipleSensorsData(key, fields, NoFilters)) ==
            Ok(Text.StripQuotesAndSpaces(BaseUrl + "sensors/" + "?fields=" + Show(fields)))
  {
    MultipleSensorsUrl(key, fields, NoFilters);
    UnfilteredEntries(NoFilters);
    var u := BaseUrl + "sensors/" + "?fields=" + Show(fields);
    assert u + "" == u;
  }

  lemma UnfilteredEntries(f: SensorFilters)
    requires f == NoFilters
    ensures EntriesText(FilterEntries(f)) == ""
  {
    var entries := FilterEntries(f);
    forall k | 0 <= k < |entries| ensures entries[k].1.PyNone? {
    }
    EntriesTextNone(entries);
  }

  /** request_sensor_historic_data: `/history/csv` exactly when the csv flag
      is truthy, then the fields, then each given optional value. */
  lemma SensorHistoricUrl(key: Value, sensorIndex: Value, fields: Value, csvDataFormat: Value,
                          readKey: Value, privacy: Value, startTimestamp: Value,
                          endTimestamp: Value, average: Value)
    ensures BuildUrl(RequestSensorHistoricData(key, sensorIndex, fields, csvDataFormat, readKey, privacy,
                                               startTimestamp, endTimestamp, average)) ==
            Ok(Text.StripQuotesAndSpaces(BaseUrl + "sensors/" + Show(sensorIndex) +
                                         (if Truthy(csvDataFormat) then "/history/csv" else "/history") +
                                         "?fields=" + Show(fields) +
                                         EntriesText(HistoryEntries(readKey, privacy, startTimestamp, endTimestamp, average))))
  {
    AmpCallUrl(BaseUrl + "sensors/" + Show(sensorIndex) + HistoryPath(csvDataFormat) + "?fields=" + Show(fields),
               key, HistoryEntries(readKey, privacy, startTimestamp, endTimestamp, average));
  }

  /** The end timestamp goes out twice: as `end_timestamp` and, right
      after it, as `modified_since`; the other values once each. */
  lemma HistoryEndTimestampTwice(readKey: Value, privacy: Value, startTimestamp: Value,
                                 endTimestamp: Value, average: Value)
    ensures EntriesText(HistoryEntries(readKey, privacy, startTimestamp, endTimestamp, average)) ==
            EntryText(("read_key", readKey)) + EntryText(("privacy", privacy)) +
            EntryText(("start_timestamp", startTimestamp)) +
            EntryText(("end_timestamp", endTimestamp)) + EntryText(("modified_since", endTimestamp)) +
            EntryText(("average", average))
  {
    var x := [("read_key", readKey), ("privacy", privacy), ("start_timestamp", startTimestamp)];
    var y := [("end_timestamp", endTimestamp), ("modified_since", endTimestamp), ("average", average)];
    assert HistoryEntries(readKey, privacy, startTimestamp, endTimestamp, average) == x + y;
    EntriesTextConcat(x, y);
    EntriesTextThree(x[0], x[1], x[2]);
    EntriesTextThree(y[0], y[1], y[2]);
    var a, b, c := EntryText(x[0]), EntryText(x[1]), EntryText(x[2]);
    var d, e, f := EntryText(y[0]), EntryText(y[1]), EntryText(y[2]);
    Regroup(a, b, c, d, e, f);
  }

  /** Regrouping steps for the examples above. */
  lemma Regroup(a: string, b: string, c: string, d: string, e: string, f: string)
    ensures (a + b + c) + (d + e + f) == a + b + c + d + e + f
  {
  }

  lemma AppendThree(u: string, a: string, b: string, c: string)
    ensures u + (a + b + c) == u + a + b + c
  {
  }

  /** request_group_detail_data: no optional parameters, so no query. */
  lemma GroupDetailUrl(key: Value, groupId: Value)
    ensures BuildUrl(RequestGroupDetailData(key, groupId)) ==
            Ok(Text.StripQuotesAndSpaces(BaseUrl + "groups/" + Show(groupId)))
  {
  }

  /** request_group_list_data sends to the groups collection itself. */
  lemma GroupListUrl(key: Value)
    ensures BuildUrl(RequestGroupListData(key)) == Ok(BaseUrl + "groups/")
  {
    StripUnderBase("groups/");
  }

  /** request_member_data: `?fields=` only when fields are given. */
  lemma MemberDataUrl(key: Value, groupId: Value, memberId: Value, fields: Value)
    ensures BuildUrl(RequestMemberData(key, groupId, memberId, fields)) ==
            Ok(Text.StripQuotesAndSpaces(BaseUrl + "groups/" + Show(groupId) + "/members/" + Show(memberId) +
                                         (if fields.PyNone? then "" else "?fields=" + Show(fields))))
  {
    var call := RequestMemberData(key, groupId, memberId, fields);
    var ps := Params([("fields", fields)]);
    assert ps == [Param("fields", fields)];
    assert [Param("fields", fields)][1..] == [];
    if !fields.PyNone? {
      Query.JoinedOne(("fields", Show(fields)), "?");
      assert "?" + "fields" + "=" == "?fields=";
      BuildUrlIs(call, "?fields=" + Show(fields));
    } else {
      BuildUrlIs(call, "");
    }
  }

  /** request_member_historic_data: the fields in the URL, then each given
      timestamp and the average. */
  lemma MemberHistoricUrl(key: Value, groupId: Value, memberId: Value, fields: Value,
                          startTimestamp: Value, endTimestamp: Value, average: Value)
    ensures BuildUrl(RequestMemberHistoricData(key, groupId, memberId, fields, startTimestamp, endTimestamp, average)) ==
            Ok(Text.StripQuotesAndSpaces(BaseUrl + "groups/" + Show(groupId) + "/members/" + Show(memberId) +
                                         "/history/?fields=" + Show(fields) +
                                         EntryText(("start_timestamp", startTimestamp)) +
                                         EntryText(("end_timestamp", endTimestamp)) +
                                         EntryText(("average", average))))
  {
    var es := [("start_timestamp", startTimestamp), ("end_timestamp", endTimestamp), ("average", average)];
    AmpCallUrl(BaseUrl + "groups/" + Show(groupId) + "/members/" + Show(memberId) + "/history/?fields=" + Show(fields),
               key, es);
    EntriesTextThree(es[0], es[1], es[2]);
    var u := BaseUrl + "groups/" + Show(groupId) + "/members/" + Show(memberId) + "/history/?fields=" + Show(fields);
    assert RequestMemberHistoricData(key, groupId, memberId, fields, startTimestamp, endTimestamp, average) ==
           GetCall(Some(u), key, PyStr("&"), Some(Params(es)));
    AppendThree(u, EntryText(es[0]), EntryText(es[1]), EntryText(es[2]));
  }

  /** request_members_data: the group's members with the same filters as the
      multi-sensor query. */
  lemma MembersDataUrl(key: Value, groupId: Value, fields: Value, filters: SensorFilters)
    ensures BuildUrl(RequestMembersData(key, groupId, fields, filters)) ==
            Ok(Text.StripQuotesAndSpaces(BaseUrl + "groups/" + Show(groupId) + "/members?fields=" + Show(fields) +
                                         EntriesText(FilterEntries(filters))))
  {
    AmpCallUrl(BaseUrl + "groups/" + Show(groupId) + "/members?fields=" + Show(fields), key, FilterEntries(filters));
  }
}

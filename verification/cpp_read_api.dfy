/** The C++ read facade (swig/src/PurpleAirReadAPI.cpp). Each request
    method fills a std::map with `if (present) m[name] = value;` in source
    order and sends it with the separator `?` and the instance read key.
    Because the map iterates in key order, the query string lists the
    parameters alphabetically, not in the order the source assigns them. */
module CppReadApi {
  import opened Wrappers
  import Text
  import Query
  import StdMap
  import Helpers
  import opened CppHelpers

  /** A C++ `int` argument. */
  type Int32 = x: int | -0x8000_0000 <= x < 0x8000_0000

  /** `m[name] = value;` */
  function Always(name: string, value: string): (string, Option<string>) {
    (name, Some(value))
  }

  /** `if (!value.empty()) m[name] = value;` */
  function IfNonEmpty(name: string, value: string): (string, Option<string>) {
    (name, if value == "" then None else Some(value))
  }

  /** `if (n > 0) m[name] = std::to_string(n);` */
  function IfPositive(name: string, n: Int32): (string, Option<string>) {
    (name, if n > 0 then Some(Text.IntToDecimal(n)) else None)
  }

  /** The value a run of assignments with pairwise distinct names gives a
      key: that of the one assignment naming it, if any. */
  lemma LookupByName(asg: seq<(string, Option<string>)>, name: string)
    requires forall i, j :: 0 <= i < j < |asg| ==> asg[i].0 != asg[j].0
    ensures (forall j :: 0 <= j < |asg| ==> asg[j].0 != name) ==> StdMap.Assigned(asg, name, None) == None
    ensures forall i :: 0 <= i < |asg| && asg[i].0 == name ==> StdMap.Assigned(asg, name, None) == asg[i].1
  {
    if forall j :: 0 <= j < |asg| ==> asg[j].0 != name {
      StdMap.AssignedNone(asg, name, None);
    } else {
      var i :| 0 <= i < |asg| && asg[i].0 == name;
      StdMap.AssignedAt(asg, name, None, i);
    }
  }

  // ---------------------------------------------------------------------
  // request_sensor_data
  // ---------------------------------------------------------------------

  function RequestSensorData(instanceKey: string, sensorIndex: Int32, readKey: string, fields: string): GetArgs
  {
    GetArgs(Helpers.BaseUrl + "sensors/" + Text.IntToDecimal(sensorIndex), instanceKey, "?",
            StdMap.InsertAll([], [IfNonEmpty("read_key", readKey), IfNonEmpty("fields", fields)]))
  }

  /** The sensor-data URL in all four cases: no `?` without parameters, and
      with both parameters `fields` before `read_key` (key order). The
      instance key goes in the header. */
  lemma SensorDataUrl(instanceKey: string, sensorIndex: Int32, readKey: string, fields: string, escape: Escape)
    ensures var args := RequestSensorData(instanceKey, sensorIndex, readKey, fields);
            args.key == instanceKey && args.separator == "?"
    ensures var args := RequestSensorData(instanceKey, sensorIndex, readKey, fields);
            var path := Helpers.BaseUrl + "sensors/" + Text.IntToDecimal(sensorIndex);
            FullUrl(args.url, args.separator, args.params, escape) ==
            path + (if readKey == "" && fields == "" then ""
                    else if fields == "" then "?" + Query.Field("read_key", Encoded(escape, readKey))
                    else if readKey == "" then "?" + Query.Field("fields", Encoded(escape, fields))
                    else "?" + Query.Field("fields", Encoded(escape, fields)) +
                         "&" + Query.Field("read_key", Encoded(escape, readKey)))
  {
    var path := Helpers.BaseUrl + "sensors/" + Text.IntToDecimal(sensorIndex);
    SensorDataMap(readKey, fields);
    SensorDataQuery(path, readKey, fields, escape);
  }

  lemma SensorDataQuery(path: string, readKey: string, fields: string, escape: Escape)
    ensures FullUrl(path, "?", (if readKey == "" && fields == "" then []
                                else if fields == "" then [("read_key", readKey)]
                                else if readKey == "" then [("fields", fields)]
                                else [("fields", fields), ("read_key", readKey)]), escape) ==
            path + (if readKey == "" && fields == "" then ""
                    else if fields == "" then "?" + Query.Field("read_key", Encoded(escape, readKey))
                    else if readKey == "" then "?" + Query.Field("fields", Encoded(escape, fields))
                    else "?" + Query.Field("fields", Encoded(escape, fields)) +
                         "&" + Query.Field("read_key", Encoded(escape, readKey)))
  {
    if readKey == "" && fields == "" {
      FullUrlPrefix(path, "?", [], escape);
    } else if fields == "" {
      OneEntry(path, "?", ("read_key", readKey), escape);
    } else if readKey == "" {
      OneEntry(path, "?", ("fields", fields), escape);
    } else {
      TwoEntries(path, "?", ("fields", fields), ("read_key", readKey), escape);
    }
  }

  /** The sensor-data map: `fields` sorts before `read_key`, whatever the
      order of the assignments. */
  lemma SensorDataMap(readKey: string, fields: string)
    ensures StdMap.InsertAll([], [IfNonEmpty("read_key", readKey), IfNonEmpty("fields", fields)]) ==
            (if readKey == "" && fields == "" then []
             else if fields == "" then [("read_key", readKey)]
             else if readKey == "" then [("fields", fields)]
             else [("fields", fields), ("read_key", readKey)])
  {
    StdMap.InsertAllTwo([], IfNonEmpty("read_key", readKey), IfNonEmpty("fields", fields));
    if readKey != "" && fields != "" {
      assert Text.Less("fields", "read_key");
    }
  }

  // ---------------------------------------------------------------------
  // request_multiple_sensors_data
  // ---------------------------------------------------------------------

  function MultipleSensorsAssignments(fields: string, locationType: string, readKeys: string, showOnly: string,
                                      modifiedSince: string, maxAge: Int32, nwlng: string, nwlat: string,
                                      selng: string, selat: string): seq<(string, Option<string>)>
  {
    [Always("fields", fields), IfNonEmpty("location_type", locationType), IfNonEmpty("read_keys", readKeys),
     IfNonEmpty("show_only", showOnly), IfNonEmpty("modified_since", modifiedSince), IfPositive("max_age", maxAge),
     IfNonEmpty("nwlng", nwlng), IfNonEmpty("nwlat", nwlat), IfNonEmpty("selng", selng), IfNonEmpty("selat", selat)]
  }

  function RequestMultipleSensorsData(instanceKey: string, fields: string, locationType: string, readKeys: string,
                                      showOnly: string, modifiedSince: string, maxAge: Int32, nwlng: string,
                                      nwlat: string, selng: string, selat: string): GetArgs
  {
    GetArgs(Helpers.BaseUrl + "sensors", instanceKey, "?",
            StdMap.InsertAll([], MultipleSensorsAssignments(fields, locationType, readKeys, showOnly, modifiedSince,
                                                            maxAge, nwlng, nwlat, selng, selat)))
  }

  /** `fields` is always in the map, so the URL is always the path `sensors`
      (no trailing slash) followed by `?`; with every argument empty (and
      max_age not positive) nothing follows the `?`. */
  lemma MultipleSensorsShape(instanceKey: string, fields: string, locationType: string, readKeys: string,
                             showOnly: string, modifiedSince: string, maxAge: Int32, nwlng: string,
                             nwlat: string, selng: string, selat: string, escape: Escape)
    ensures var args := RequestMultipleSensorsData(instanceKey, fields, locationType, readKeys, showOnly,
                                                   modifiedSince, maxAge, nwlng, nwlat, selng, selat);
            var url := FullUrl(args.url, args.separator, args.params, escape);
            args.key == instanceKey &&
            |Helpers.BaseUrl + "sensors?"| <= |url| && url[..|Helpers.BaseUrl + "sensors?"|] == Helpers.BaseUrl + "sensors?"
    ensures fields == "" && locationType == "" && readKeys == "" && showOnly == "" && modifiedSince == "" &&
            maxAge <= 0 && nwlng == "" && nwlat == "" && selng == "" && selat == "" ==>
            var args := RequestMultipleSensorsData(instanceKey, fields, locationType, readKeys, showOnly,
                                                   modifiedSince, maxAge, nwlng, nwlat, selng, selat);
            FullUrl(args.url, args.separator, args.params, escape) == Helpers.BaseUrl + "sensors?"
  {
    var args := RequestMultipleSensorsData(instanceKey, fields, locationType, readKeys, showOnly,
                                           modifiedSince, maxAge, nwlng, nwlat, selng, selat);
    var asg := MultipleSensorsAssignments(fields, locationType, readKeys, showOnly, modifiedSince,
                                          maxAge, nwlng, nwlat, selng, selat);
    MultipleSensorsLookup(fields, locationType, readKeys, showOnly, modifiedSince, maxAge, nwlng, nwlat, selng, selat,
                          "fields");
    StdMap.GetFound(args.params, "fields");
    FullUrlPrefix(args.url, "?", args.params, escape);
    if fields == "" && locationType == "" && readKeys == "" && showOnly == "" && modifiedSince == "" &&
       maxAge <= 0 && nwlng == "" && nwlat == "" && selng == "" && selat == "" {
      MultipleSensorsUnfiltered(fields, locationType, readKeys, showOnly, modifiedSince, maxAge, nwlng, nwlat,
                                selng, selat);
      DanglingSeparator(args.url, "?", args.params, escape);
    }
  }

  /** With every argument empty, only the (empty) fields entry is made. */
  lemma MultipleSensorsUnfiltered(fields: string, locationType: string, readKeys: string, showOnly: string,
                                  modifiedSince: string, maxAge: Int32, nwlng: string, nwlat: string,
                                  selng: string, selat: string)
    requires fields == "" && locationType == "" && readKeys == "" && showOnly == "" && modifiedSince == ""
    requires maxAge <= 0 && nwlng == "" && nwlat == "" && selng == "" && selat == ""
    ensures StdMap.InsertAll([], MultipleSensorsAssignments(fields, locationType, readKeys, showOnly, modifiedSince,
                                                            maxAge, nwlng, nwlat, selng, selat)) == [("fields", "")]
  {
    var asg := MultipleSensorsAssignments(fields, locationType, readKeys, showOnly, modifiedSince,
                                          maxAge, nwlng, nwlat, selng, selat);
    OnlyFirst(asg, "fields", "");
  }

  /** A run whose first assignment is the only present one leaves just that
      entry. */
  lemma OnlyFirst(asg: seq<(string, Option<string>)>, k: string, v: string)
    requires |asg| > 0 && asg[0] == (k, Some(v))
    requires forall j :: 1 <= j < |asg| ==> asg[j].1.None?
    ensures StdMap.InsertAll([], asg) == [(k, v)]
  {
    assert asg == [asg[0]] + asg[1..];
    StdMap.InsertAllConcat([], [asg[0]], asg[1..]);
    assert [asg[0]][1..] == [];
    StdMap.InsertAllAbsent([(k, v)], asg[1..]);
  }

  /** The multiple-sensors parameters by name, as a table: `fields` is
      always there (possibly empty), `max_age` when positive, every other
      optional when non-empty, and no other name. */
  function MultipleSensorsValue(name: string, fields: string, locationType: string, readKeys: string,
                                showOnly: string, modifiedSince: string, maxAge: Int32, nwlng: string,
                                nwlat: string, selng: string, selat: string): Option<string>
  {
    if name == "fields" then Some(fields)
    else if name == "location_type" then IfNonEmpty(name, locationType).1
    else if name == "read_keys" then IfNonEmpty(name, readKeys).1
    else if name == "show_only" then IfNonEmpty(name, showOnly).1
    else if name == "modified_since" then IfNonEmpty(name, modifiedSince).1
    else if name == "max_age" then IfPositive(name, maxAge).1
    else if name == "nwlng" then IfNonEmpty(name, nwlng).1
    else if name == "nwlat" then IfNonEmpty(name, nwlat).1
    else if name == "selng" then IfNonEmpty(name, selng).1
    else if name == "selat" then IfNonEmpty(name, selat).1
    else None
  }

  /** The map the source builds is sorted and holds exactly the table. */
  lemma MultipleSensorsLookup(fields: string, locationType: string, readKeys: string, showOnly: string,
                              modifiedSince: string, maxAge: Int32, nwlng: string, nwlat: string,
                              selng: string, selat: string, name: string)
    ensures var m := StdMap.InsertAll([], MultipleSensorsAssignments(fields, locationType, readKeys, showOnly,
                                                                     modifiedSince, maxAge, nwlng, nwlat, selng, selat));
            StdMap.Sorted(m) &&
            StdMap.Get(m, name) == MultipleSensorsValue(name, fields, locationType, readKeys, showOnly,
                                                        modifiedSince, maxAge, nwlng, nwlat, selng, selat)
  {
    var asg := MultipleSensorsAssignments(fields, locationType, readKeys, showOnly, modifiedSince,
                                          maxAge, nwlng, nwlat, selng, selat);
    StdMap.InsertAllSorted([], asg);
    StdMap.GetInsertAll([], asg, name);
    MultipleSensorsDistinct(fields, locationType, readKeys, showOnly, modifiedSince, maxAge, nwlng, nwlat, selng, selat);
    LookupByName(asg, name);
    if name == "fields" { assert asg[0].0 == name; }
    else if name == "location_type" { assert asg[1].0 == name; }
    else if name == "read_keys" { assert asg[2].0 == name; }
    else if name == "show_only" { assert asg[3].0 == name; }
    else if name == "modified_since" { assert asg[4].0 == name; }
    else if name == "max_age" { assert asg[5].0 == name; }
    else if name == "nwlng" { assert asg[6].0 == name; }
    else if name == "nwlat" { assert asg[7].0 == name; }
    else if name == "selng" { assert asg[8].0 == name; }
    else if name == "selat" { assert asg[9].0 == name; }
  }

  lemma MultipleSensorsDistinct(fields: string, locationType: string, readKeys: string, showOnly: string,
                                modifiedSince: string, maxAge: Int32, nwlng: string, nwlat: string,
                                selng: string, selat: string)
    ensures var asg := MultipleSensorsAssignments(fields, locationType, readKeys, showOnly, modifiedSince,
                                                  maxAge, nwlng, nwlat, selng, selat);
            forall i, j :: 0 <= i < j < |asg| ==> asg[i].0 != asg[j].0
  {
  }

  /** What appears in the multiple-sensors query: `fields` whenever it is
      non-empty, `max_age` whenever it is positive, each other optional
      whenever it is non-empty, and nothing else. */
  lemma MultipleSensorsRendered(instanceKey: string, fields: string, locationType: string, readKeys: string,
                                showOnly: string, modifiedSince: string, maxAge: Int32, nwlng: string,
                                nwlat: string, selng: string, selat: string, escape: Escape,
                                name: string, text: string)
    ensures var args := RequestMultipleSensorsData(instanceKey, fields, locationType, readKeys, showOnly,
                                                   modifiedSince, maxAge, nwlng, nwlat, selng, selat);
            Rendered(escape, args.params, name, text) <==>
              (name == "fields" && fields != "" && text == Encoded(escape, fields)) ||
              (name == "location_type" && locationType != "" && text == Encoded(escape, locationType)) ||
              (name == "read_keys" && readKeys != "" && text == Encoded(escape, readKeys)) ||
              (name == "show_only" && showOnly != "" && text == Encoded(escape, showOnly)) ||
              (name == "modified_since" && modifiedSince != "" && text == Encoded(escape, modifiedSince)) ||
              (name == "max_age" && maxAge > 0 && text == Encoded(escape, Text.IntToDecimal(maxAge))) ||
              (name == "nwlng" && nwlng != "" && text == Encoded(escape, nwlng)) ||
              (name == "nwlat" && nwlat != "" && text == Encoded(escape, nwlat)) ||
              (name == "selng" && selng != "" && text == Encoded(escape, selng)) ||
              (name == "selat" && selat != "" && text == Encoded(escape, selat))
  {
    var m := RequestMultipleSensorsData(instanceKey, fields, locationType, readKeys, showOnly,
                                        modifiedSince, maxAge, nwlng, nwlat, selng, selat).params;
    MultipleSensorsLookup(fields, locationType, readKeys, showOnly, modifiedSince, maxAge, nwlng, nwlat, selng, selat, name);
    RenderedByKey(m, escape, name, text);
    MultipleSensorsTable(fields, locationType, readKeys, showOnly, modifiedSince, maxAge, nwlng, nwlat, selng, selat,
                         escape, name, text);
  }

  /** The table read as a disjunction of one case per name. */
  lemma MultipleSensorsTable(fields: string, locationType: string, readKeys: string, showOnly: string,
                             modifiedSince: string, maxAge: Int32, nwlng: string, nwlat: string,
                             selng: string, selat: string, escape: Escape, name: string, text: string)
    ensures var v := MultipleSensorsValue(name, fields, locationType, readKeys, showOnly,
                                          modifiedSince, maxAge, nwlng, nwlat, selng, selat);
            (v.Some? && v.value != "" && text == Encoded(escape, v.value)) <==>
              (name == "fields" && fields != "" && text == Encoded(escape, fields)) ||
              (name == "location_type" && locationType != "" && text == Encoded(escape, locationType)) ||
              (name == "read_keys" && readKeys != "" && text == Encoded(escape, readKeys)) ||
              (name == "show_only" && showOnly != "" && text == Encoded(escape, showOnly)) ||
              (name == "modified_since" && modifiedSince != "" && text == Encoded(escape, modifiedSince)) ||
              (name == "max_age" && maxAge > 0 && text == Encoded(escape, Text.IntToDecimal(maxAge))) ||
              (name == "nwlng" && nwlng != "" && text == Encoded(escape, nwlng)) ||
              (name == "nwlat" && nwlat != "" && text == Encoded(escape, nwlat)) ||
              (name == "selng" && selng != "" && text == Encoded(escape, selng)) ||
              (name == "selat" && selat != "" && text == Encoded(escape, selat))
  {
    if maxAge > 0 {
      assert |Text.IntToDecimal(maxAge)| > 0;
    }
  }

  // ---------------------------------------------------------------------
  // request_sensor_history
  // ---------------------------------------------------------------------

  function HistoryAssignments(readKey: string, startTimestamp: Int32, endTimestamp: Int32, average: Int32,
                              fields: string): seq<(string, Option<string>)>
  {
    [Always("start_timestamp", Text.IntToDecimal(startTimestamp)), Always("end_timestamp", Text.IntToDecimal(endTimestamp)),
     IfNonEmpty("read_key", readKey), IfPositive("average", average), IfNonEmpty("fields", fields)]
  }

  function RequestSensorHistory(instanceKey: string, sensorIndex: Int32, readKey: string, startTimestamp: Int32,
                                endTimestamp: Int32, average: Int32, fields: string): GetArgs
  {
    GetArgs(Helpers.BaseUrl + "sensors/" + Text.IntToDecimal(sensorIndex) + "/history", instanceKey, "?",
            StdMap.InsertAll([], HistoryAssignments(readKey, startTimestamp, endTimestamp, average, fields)))
  }

  /** The history parameters by name, as a table. */
  function HistoryValue(name: string, readKey: string, startTimestamp: Int32, endTimestamp: Int32, average: Int32,
                        fields: string): Option<string>
  {
    if name == "start_timestamp" then Some(Text.IntToDecimal(startTimestamp))
    else if name == "end_timestamp" then Some(Text.IntToDecimal(endTimestamp))
    else if name == "read_key" then IfNonEmpty(name, readKey).1
    else if name == "average" then IfPositive(name, average).1
    else if name == "fields" then IfNonEmpty(name, fields).1
    else None
  }

  /** The map the source builds is sorted and holds exactly the table. */
  lemma HistoryLookup(readKey: string, startTimestamp: Int32, endTimestamp: Int32, average: Int32, fields: string,
                      name: string)
    ensures var m := StdMap.InsertAll([], HistoryAssignments(readKey, startTimestamp, endTimestamp, average, fields));
            StdMap.Sorted(m) && StdMap.Get(m, name) == HistoryValue(name, readKey, startTimestamp, endTimestamp, average, fields)
  {
    var asg := HistoryAssignments(readKey, startTimestamp, endTimestamp, average, fields);
    StdMap.InsertAllSorted([], asg);
    StdMap.GetInsertAll([], asg, name);
    LookupByName(asg, name);
    if name == "start_timestamp" { assert asg[0].0 == name; }
    else if name == "end_timestamp" { assert asg[1].0 == name; }
    else if name == "read_key" { assert asg[2].0 == name; }
    else if name == "average" { assert asg[3].0 == name; }
    else if name == "fields" { assert asg[4].0 == name; }
  }

  /** What appears in the history query: both timestamps always, `average`
      whenever it is positive, `read_key` and `fields` whenever non-empty,
      and nothing else. */
  lemma HistoryRendered(instanceKey: string, sensorIndex: Int32, readKey: string, startTimestamp: Int32,
                        endTimestamp: Int32, average: Int32, fields: string, escape: Escape,
                        name: string, text: string)
    ensures var args := RequestSensorHistory(instanceKey, sensorIndex, readKey, startTimestamp, endTimestamp,
                                             average, fields);
            Rendered(escape, args.params, name, text) <==>
              (name == "start_timestamp" && text == Encoded(escape, Text.IntToDecimal(startTimestamp))) ||
              (name == "end_timestamp" && text == Encoded(escape, Text.IntToDecimal(endTimestamp))) ||
              (name == "read_key" && readKey != "" && text == Encoded(escape, readKey)) ||
              (name == "average" && average > 0 && text == Encoded(escape, Text.IntToDecimal(average))) ||
              (name == "fields" && fields != "" && text == Encoded(escape, fields))
  {
    var m := RequestSensorHistory(instanceKey, sensorIndex, readKey, startTimestamp, endTimestamp, average, fields).params;
    HistoryLookup(readKey, startTimestamp, endTimestamp, average, fields, name);
    RenderedByKey(m, escape, name, text);
  }

  /** Without the optional parameters the history map holds the two
      timestamps, `end_timestamp` first. */
  lemma HistoryTimestampsMap(startTimestamp: Int32, endTimestamp: Int32, average: Int32)
    requires average <= 0
    ensures StdMap.InsertAll([], HistoryAssignments("", startTimestamp, endTimestamp, average, "")) ==
            [("end_timestamp", Text.IntToDecimal(endTimestamp)), ("start_timestamp", Text.IntToDecimal(startTimestamp))]
  {
    var s := Text.IntToDecimal(startTimestamp);
    var e := Text.IntToDecimal(endTimestamp);
    var asg := HistoryAssignments("", startTimestamp, endTimestamp, average, "");
    assert asg == [asg[0], asg[1]] + asg[2..];
    StdMap.InsertAllConcat([], [asg[0], asg[1]], asg[2..]);
    StdMap.InsertAllTwo([], asg[0], asg[1]);
    assert Text.Less("end_timestamp", "start_timestamp");
    assert StdMap.InsertAll([], [asg[0], asg[1]]) == [("end_timestamp", e), ("start_timestamp", s)];
    StdMap.InsertAllAbsent([("end_timestamp", e), ("start_timestamp", s)], asg[2..]);
  }

  /** With only the timestamps, the query lists `end_timestamp` before
      `start_timestamp`: key order, the reverse of the order the source
      assigns them. */
  lemma HistoryTimestampsOnly(instanceKey: string, sensorIndex: Int32, startTimestamp: Int32,
                              endTimestamp: Int32, average: Int32, escape: Escape)
    requires average <= 0
    ensures var args := RequestSensorHistory(instanceKey, sensorIndex, "", startTimestamp, endTimestamp, average, "");
            args.key == instanceKey &&
            FullUrl(args.url, args.separator, args.params, escape) ==
            args.url + "?" + Query.Field("end_timestamp", Encoded(escape, Text.IntToDecimal(endTimestamp))) +
            "&" + Query.Field("start_timestamp", Encoded(escape, Text.IntToDecimal(startTimestamp)))
  {
    var s := Text.IntToDecimal(startTimestamp);
    var e := Text.IntToDecimal(endTimestamp);
    var args := RequestSensorHistory(instanceKey, sensorIndex, "", startTimestamp, endTimestamp, average, "");
    HistoryTimestampsMap(startTimestamp, endTimestamp, average);
    TwoEntries(args.url, "?", ("end_timestamp", e), ("start_timestamp", s), escape);
  }

  /** The history endpoint lives under the sensor's own endpoint. */
  lemma HistoryUnderSensor(instanceKey: string, sensorIndex: Int32, readKey: string, startTimestamp: Int32,
                           endTimestamp: Int32, average: Int32, fields: string)
    ensures RequestSensorHistory(instanceKey, sensorIndex, readKey, startTimestamp, endTimestamp, average, fields).url ==
            RequestSensorData(instanceKey, sensorIndex, readKey, fields).url + "/history"
  {
  }
}

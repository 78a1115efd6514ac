# PurpleAir API client, modelled in Dafny

The PurpleAir API client wraps the PurpleAir REST service (`https://api.purpleair.com/v1/`)
and the JSON endpoint of a sensor on the local network (`http://<address>/json`). It exists
twice in the repository. The Python package builds request URLs from a dictionary of optional
parameters, strips quotes and spaces from the URL, sends the request with the key in an
`X-API-Key` header, and turns the status code into a payload or an error. The C++ library
does the same with a `std::map` of parameters, which is ordered by key, and with
`curl_easy_escape` on each value. Both composers check every key they are given against the
`keys` endpoint before accepting it. They require the read key to be reported as `READ` and
the write key as `WRITE`.

This project models both implementations as pure functions:

- `Wrappers`: `Option`, `Result` with the error shapes the client raises, and a small JSON
  value type.
- `Text`: decimal rendering (`str()` / `std::to_string`) with its inverse, character removal
  (`str.replace(c, "")` / `erase(remove(...))`), `find`, and the byte-wise string order
  that `std::map` iterates in.
- `Status`: the success and error code lists and the three-way classification both sides
  make.
- `Query`: the Python loop that appends `separator name=value` for the first present
  parameter and `&name=value` for each later one.
- `Helpers`, `ReadApi`, `WriteApi`, `LocalApi`, `Client`: the Python modules.
- `StdMap`, `CppHelpers`, `CppReadApi`, `CppWriteApi`, `CppLocalApi`, `CppClient`: the
  C++ library.

The network is a parameter. A Python `Transport` maps a request (verb, URL, key header,
JSON body) to a response (status, parsed payload). A C++ `CppTransport` maps a request to
either a CURL failure or a status and a body text. `curl_easy_escape` is a parameter
`escape` too: it returns the encoded text, or `None` when it fails, and the source then
falls back to the raw value. Python values that the client formats with f-strings are
`Value = PyNone | PyBool | PyInt | PyStr`. C++ `int` arguments are `Int32`.

Notes on where the two implementations differ, as the code has them:

- The Python unknown-status message is spelled `Unkown status code - N!`. The C++ one is
  `Unknown status code - N!`. Each model keeps its own spelling.
- Python sends optional parameters in the dictionary's insertion order, skipping `None`.
  C++ sends them in ascending key order (the `std::map` order), skipping empty strings. So
  `request_sensor_data` with both values yields `?read_key=..&fields=..` in Python and
  `?fields=..&read_key=..` in C++.
- C++ `request_multiple_sensors_data` always assigns `fields`. An empty `fields` is then
  skipped by the renderer, so the URL can end with a bare `?`.
- The C++ write and delete endpoints are `members` and `members/<id>`. The Python ones are
  under `groups/<id>/members`.
- Both composers reject a key given as both the read key and the write key. The single
  recorded type cannot be both `READ` and `WRITE`.

Where the documented behaviour and the code disagree, the model follows the code:

- The local API takes one address string, not a list. It rejects only `None` and the empty
  string; there is no 15-character limit. `request_local_sensor_data` sends one GET and
  returns that host's payload, not a map from address to payload. The C++ version keeps a
  list but queries only its first address.
- A failure status whose payload lacks `error` or `description` does not produce the HTTP
  error. The subscript fails first, and `Helpers.Receive` returns that lookup error.
- The Python multi-sensor URL is `sensors/?fields=...` with a slash before the query. The
  C++ one is `sensors?...`.

## Model

| member | source | states |
|---|---|---|
| Status.FindCode | purpleair_api/src/PurpleAirAPIHelpers.cpp:35-37 | `std::find`: returns the first position holding the code, or the list length when no position does |
| Status.VerifyRequestStatusCode | purpleair_api/PurpleAirAPIHelpers.py:36-50 | some(true) exactly for a success code, some(false) exactly for an error code outside the success list, none exactly for a code in neither list; agrees with the reference classification |
| Status.VerifyStatusPy | purpleair_api/PurpleAirAPIHelpers.py:36-50 | true iff the status is a success code; false iff it is an error code and not a success code; the "Unkown status code" error iff it is in neither list |
| Status.CppClassification | purpleair_api/src/PurpleAirAPIHelpers.cpp:34-42 | with the C++ lists: true exactly for 200 and 201; false exactly for 400, 403, 404, 429, 500, 502, 503, 504; an exception for every other status |
| Text.IntDecimalRoundTrip | swig/src/PurpleAirReadAPI.cpp:17 | reading back the decimal text of any integer gives that integer, so `std::to_string` and `f"{n}"` lose nothing |
| Text.NatDecimalRoundTrip | swig/src/PurpleAirReadAPI.cpp:17 | reading back the digits of a natural number gives that number |
| Text.RemoveCounts | purpleair_api/src/PurpleAirAPI.cpp:74-75 | erasing a character keeps every other character with its multiplicity and drops all copies of that one |
| Text.RemoveIdentityIff | purpleair_api/src/PurpleAirAPI.cpp:74-75 | erasing a character changes the text iff the character occurs in it |
| Text.RemoveConcat | purpleair_api/src/PurpleAirAPI.cpp:74-75 | erasing distributes over concatenation |
| Text.StripCounts | purpleair_api/PurpleAirAPIHelpers.py:129-132 | stripping the URL keeps every character except `"` and space, with its multiplicity |
| Text.StripIdempotent | purpleair_api/PurpleAirAPIHelpers.py:129-132 | stripping an already stripped URL changes nothing |
| Text.StripConcat | purpleair_api/PurpleAirAPIHelpers.py:129-132 | stripping a concatenation is the concatenation of the stripped parts |
| Text.StripClean | purpleair_api/PurpleAirAPIHelpers.py:129-132 | a text without quotes or spaces is left as it is |
| Text.FindChar | purpleair_api/src/PurpleAirAPI.cpp:69-71 | `find(c, from)`: the first index at or after `from` holding c, and none when no index does |
| Text.FindText | purpleair_api/src/PurpleAirAPI.cpp:64-66 | `find(t)`: the first index where t occurs, and none when t occurs nowhere |
| Text.LessTotal | swig/src/PurpleAirReadAPI.cpp:19 | the key order of `std::map<std::string, ...>` is total on distinct keys |
| Text.LessTransitive | swig/src/PurpleAirReadAPI.cpp:19 | the key order is transitive |
| Query.AppendOptionalParameters | purpleair_api/PurpleAirAPIHelpers.py:115-127 | the counting loop yields the URL followed by the separator and the first present `name=value`, then `&name=value` for each later present one, in dictionary order |
| Query.PresentMembers | purpleair_api/PurpleAirAPIHelpers.py:116-117 | a pair is rendered iff the dictionary holds that name with a value that is not `None` |
| Query.PresentConcat | purpleair_api/PurpleAirAPIHelpers.py:116-117 | filtering out `None` distributes over concatenation of dictionaries |
| Query.JoinedSnoc | purpleair_api/PurpleAirAPIHelpers.py:120-127 | appending one present parameter adds the separator if it is the first one and `&` otherwise, then `name=value` |
| Query.JoinedAmpIsAmpEach | purpleair_api/PurpleAirAPIHelpers.py:120-127 | with `&` as the first separator, the query is `&name=value` for every present parameter |
| Helpers.BaseUrlClean | purpleair_api/PurpleAirReadAPI.py:22 | the base URL has no quotes or spaces, so stripping leaves it intact |
| Helpers.Params | purpleair_api/PurpleAirAPIHelpers.py:116 | the parameter list has one entry per dictionary item, in order |
| Helpers.BuildUrl | purpleair_api/PurpleAirAPIHelpers.py:106-132 | an error iff the URL is `None`, or a dictionary comes with a separator other than `?` or `&`; a built URL has no quotes or spaces; with nothing present it is the stripped URL |
| Helpers.BuildUrlWithParameters | purpleair_api/PurpleAirAPIHelpers.py:115-132 | with parameters present, the URL is the stripped base, the stripped `separator name=value` of the first one, and the stripped `&name=value` of the rest |
| Helpers.PrepareGet | purpleair_api/PurpleAirAPIHelpers.py:136-142 | a GET is sent iff the URL builds; it goes to that URL with no body; there is a key header iff a key was given, and it carries `str()` of the key (a string key itself) |
| Helpers.Lookup | purpleair_api/PurpleAirAPIHelpers.py:152-154 | `payload[name]` succeeds iff the payload is an object with that field, and yields it; otherwise a Python error |
| Helpers.Receive | purpleair_api/PurpleAirAPIHelpers.py:144-154 | the payload iff the status is a success code; for an error code, an HTTP failure carrying the payload's `error` and `description`, or the lookup error when one is missing; the "Unkown status code" error otherwise |
| Helpers.SendGet | purpleair_api/PurpleAirAPIHelpers.py:89-154 | a URL error is returned without sending; otherwise the transport's answer to the prepared request, classified by status |
| Helpers.BodyRequest | purpleair_api/PurpleAirAPIHelpers.py:167-177 | a POST or DELETE goes to the URL unchanged with the key header always present; it carries a JSON body iff the parameters are non-empty |
| Helpers.SendPost | purpleair_api/PurpleAirAPIHelpers.py:157-189 | the transport is handed a POST to the URL unchanged, with the header `str(key)` and a body iff the parameters are non-empty; its answer is classified as Receive states |
| Helpers.SendDelete | purpleair_api/PurpleAirAPIHelpers.py:192-222 | the transport is handed a DELETE to the URL unchanged, with the header `str(key)` and a body iff the parameters are non-empty; its answer is classified as Receive states |
| Helpers.SanitizeSensorData | purpleair_api/PurpleAirAPIHelpers.py:71-86 | with no accepted names the payload comes back as given; otherwise it fails iff there is no `sensor` dictionary: TypeError for a payload that is not a dictionary, KeyError without `sensor`, AttributeError when `sensor` is not a dictionary; given a `sensor` dictionary, every top-level field and every sensor field is kept and each default the sensor lacks is added |
| ReadApi.AmpQueryIsEntriesText | purpleair_api/PurpleAirAPIHelpers.py:120-127 | the `&`-separated query equals the per-entry reference rendering (`&name=value`, nothing for `None`) |
| ReadApi.EntriesTextConcat | purpleair_api/PurpleAirAPIHelpers.py:120-127 | the reference rendering distributes over concatenation |
| ReadApi.EntriesTextNone | purpleair_api/PurpleAirAPIHelpers.py:116-117 | a dictionary of `None` values renders as nothing |
| ReadApi.AmpCallUrl | purpleair_api/PurpleAirAPIHelpers.py:106-132 | any `&` call builds the stripped URL followed by the reference rendering of its entries |
| ReadApi.SensorDataQueryText | purpleair_api/PurpleAirReadAPI.py:51-61 | the query of `request_sensor_data` is `?read_key=..&fields=..`, leaving out each `None` and using `?` for the first present one |
| ReadApi.SensorDataUrl | purpleair_api/PurpleAirReadAPI.py:51-61 | the URL is the stripped `sensors/<index>` path and its query |
| ReadApi.SensorDataExample | purpleair_api/PurpleAirReadAPI.py:51-61 | index 1234, read key 56789 and fields `test1, test2, test3` give `.../sensors/1234?read_key=56789&fields=test1,test2,test3` |
| ReadApi.MultipleSensorsUrl | purpleair_api/PurpleAirReadAPI.py:143-167 | the URL is `sensors/?fields=<fields>`, then `&name=value` for each filter that is not `None`, in the order location_type, read_keys, show_only, modified_since, max_age, nwlng, nwlat, selng, selat |
| ReadApi.MultipleSensorsNoFilters | purpleair_api/PurpleAirReadAPI.py:143-167 | without filters the URL is `sensors/?fields=<fields>` alone |
| ReadApi.SensorHistoricUrl | purpleair_api/PurpleAirReadAPI.py:239-271 | the URL is `sensors/<index>/history` or `/history/csv` when the CSV flag is truthy, then `?fields=`, then the rendered optional parameters |
| ReadApi.HistoryEndTimestampTwice | purpleair_api/PurpleAirReadAPI.py:256-263 | the end timestamp is sent twice, as `end_timestamp` and as `modified_since` |
| ReadApi.GroupDetailUrl | purpleair_api/PurpleAirReadAPI.py:280-281 | the URL is `groups/<group_id>` |
| ReadApi.GroupListUrl | purpleair_api/PurpleAirReadAPI.py:288-289 | the URL is `groups/` exactly |
| ReadApi.MemberDataUrl | purpleair_api/PurpleAirReadAPI.py:331-345 | the URL is `groups/<g>/members/<m>`, with `?fields=<fields>` iff fields is not `None` |
| ReadApi.MemberHistoricUrl | purpleair_api/PurpleAirReadAPI.py:404-423 | the URL is `groups/<g>/members/<m>/history/?fields=<fields>`, then the start, end and average parameters that are present |
| ReadApi.MembersDataUrl | purpleair_api/PurpleAirReadAPI.py:501-526 | the URL is `groups/<g>/members?fields=<fields>`, then the present filters in the same order as for sensors |
| WriteApi.CreateGroupRequest | purpleair_api/PurpleAirWriteAPI.py:36-38 | a POST to `groups` with the key header and the body `{"name": name}` |
| WriteApi.PostCreateMember | purpleair_api/PurpleAirWriteAPI.py:78-118 | accepted iff the arguments match one of the three layouts; then a POST to `groups/<g>/members` with `sensor_id`, or `sensor_index`, or `sensor_id`, `owner_email` and `location_type`; otherwise the configuration error |
| WriteApi.MemberLayoutsExclusive | purpleair_api/PurpleAirWriteAPI.py:80-104 | no arguments match two layouts; the body has three fields iff it is the private layout, and starts with `sensor_index` iff it is the index layout |
| WriteApi.MemberRejections | purpleair_api/PurpleAirWriteAPI.py:80-118 | both an index and an id, an index with an email, neither index nor id, or a location type without an email are rejected |
| WriteApi.CreateMember | purpleair_api/PurpleAirWriteAPI.py:78-118 | a rejected layout raises without sending; an accepted one returns the transport's classified answer to the POST |
| WriteApi.PostDeleteGroup | purpleair_api/PurpleAirWriteAPI.py:127-129 | a DELETE without body to `groups/<g>` with the instance key |
| WriteApi.PostDeleteMember | purpleair_api/PurpleAirWriteAPI.py:137-141 | a DELETE without body to `groups/<g>/members/<m>` with the instance key |
| WriteApi.DeleteMemberUnderGroup | purpleair_api/PurpleAirWriteAPI.py:127-141 | a member's URL extends its group's URL |
| LocalApi.NewLocal | purpleair_api/PurpleAirLocalAPI.py:20-30 | `None` and the empty string raise the missing-address error; a number raises a type error; accepted iff a non-empty string is given, and then the URL is `http://<address>/json` |
| LocalApi.LocalRequest | purpleair_api/PurpleAirLocalAPI.py:32-37 | the local request is a GET of `http://<address>/json` with no key and no body |
| LocalApi.LocalUrlRoundTrip | purpleair_api/PurpleAirLocalAPI.py:30 | the address can be read back from the local URL between `http://` and `/json` |
| Client.CheckAnApiKey | purpleair_api/PurpleAirAPI.py:91-115 | succeeds iff the keys endpoint answers with an object holding `api_version`, `time_stamp` and `api_key_type`; then records exactly those three under the key and changes nothing else |
| Client.KeyCheckRequest | purpleair_api/PurpleAirAPI.py:99-102 | the key check is a GET of `.../v1/keys` with that key as header |
| Client.CheckKeys | purpleair_api/PurpleAirAPI.py:44-64 | after checking, the recorded keys are exactly the given keys that are not `None`, and all three records hold the same keys |
| Client.CheckKeysRecords | purpleair_api/PurpleAirAPI.py:57-64 | every recorded type is the `api_key_type` the endpoint returned for that key; a failed read-key check is the constructor's error |
| Client.CrossCheckAsWritten | purpleair_api/PurpleAirAPI.py:69-83 | as written: accepted iff the read key is `READ` and the write key `WRITE`; the write key is stored only on the read-key path |
| Client.NewClientAsWritten | purpleair_api/PurpleAirAPI.py:32-83 | as written: no arguments raise the combination error; any address raises |
| Client.AddressAlwaysRejected | purpleair_api/PurpleAirAPI.py:66-67 | as written: an address alone raises `TypeError` for the unknown keyword `ipv4_address_list` |
| Client.WriteKeyOf | purpleair_api/PurpleAirWriteAPI.py:38 | reading the write key fails with `AttributeError` iff it was never stored |
| Client.WriteOnlyKeyUnset | purpleair_api/PurpleAirAPI.py:69-80 | as written: a client built from a write key alone has no write key stored |
| Client.CrossCheck | purpleair_api/PurpleAirAPI.py:69-83 | corrected: the same acceptance, and each accepted key is stored on its own side |
| Client.NewClient | purpleair_api/PurpleAirAPI.py:32-83 | corrected: no arguments raise the combination error; accepted keys are recorded with types `READ` and `WRITE`; a given write key is stored; a given address yields the local URL |
| Client.LocalOnlyClient | purpleair_api/PurpleAirAPI.py:66-67 | corrected: an address alone yields a client with URL `http://<address>/json` |
| Client.WriteKeyStored | purpleair_api/PurpleAirAPI.py:69-83 | corrected: a client built with a write key can read it back |
| Client.ConstructorsAgree | purpleair_api/PurpleAirAPI.py:32-83 | without an address, the corrected and the as-written constructors accept and reject the same keys with the same errors, and differ only in the stored write key |
| Client.SameKeyTwiceRejected | purpleair_api/PurpleAirAPI.py:69-83 | the same key as read and write key is rejected by both constructors |
| StdMap.GetSome | swig/src/PurpleAirReadAPI.cpp:19 | `find` succeeds iff the key is in the map |
| StdMap.InsertSorted | swig/src/PurpleAirReadAPI.cpp:19-25 | `m[k] = v` keeps the keys strictly ascending |
| StdMap.GetInsert | swig/src/PurpleAirReadAPI.cpp:19-25 | after `m[k] = v`, k holds v and every other key holds what it held |
| StdMap.GetEntry | swig/src/PurpleAirReadAPI.cpp:19 | in a sorted map, each entry is what `find` returns for its key |
| StdMap.GetInsertAll | swig/src/PurpleAirReadAPI.cpp:19-25 | after a run of conditional assignments, each key holds its last assigned value, or its earlier value when none applied |
| StdMap.InsertAllConcat | swig/src/PurpleAirReadAPI.cpp:19-25 | two runs of assignments compose |
| StdMap.InsertAllAbsent | swig/src/PurpleAirReadAPI.cpp:19-25 | assignments whose conditions all fail leave the map unchanged |
| CppHelpers.BuildFullUrl | purpleair_api/src/PurpleAirAPIHelpers.cpp:60-82 | the loop yields the reference URL: the request URL, the separator iff both it and the map are non-empty, then `name=escaped value` for each non-empty entry in key order, joined by `&` |
| CppHelpers.FullUrlPrefix | purpleair_api/src/PurpleAirAPIHelpers.cpp:60-82 | the URL always starts with the request URL, followed by the separator when both it and the map are non-empty; otherwise it is the request URL alone |
| CppHelpers.DanglingSeparator | purpleair_api/src/PurpleAirAPIHelpers.cpp:63-67 | a non-empty map of empty values leaves the separator at the end of the URL with nothing after it |
| CppHelpers.RenderedEntries | purpleair_api/src/PurpleAirAPIHelpers.cpp:66-78 | a `name=text` is rendered iff the map has an entry with that name and a non-empty value whose escaping is text |
| CppHelpers.RenderedByKey | purpleair_api/src/PurpleAirAPIHelpers.cpp:66-78 | for a sorted map, a name is rendered iff `find` gives it a non-empty value, and then with that value escaped |
| CppHelpers.TwoEntries | purpleair_api/src/PurpleAirAPIHelpers.cpp:63-81 | two non-empty entries render as `separator a=.. & b=..` in map order |
| CppHelpers.OneEntry | purpleair_api/src/PurpleAirAPIHelpers.cpp:63-81 | one entry renders as `separator name=..`, or the bare separator when its value is empty |
| CppHelpers.KeyHeader | purpleair_api/src/PurpleAirAPIHelpers.cpp:91-94 | the key header is sent iff the key is non-empty, and then carries the key |
| CppHelpers.ConvertTextToJson | purpleair_api/src/PurpleAirAPIHelpers.cpp:44-49 | the text is returned unchanged |
| CppHelpers.CppReceive | purpleair_api/src/PurpleAirAPIHelpers.cpp:112-120 | the body iff CURL succeeded and the status is a success code; a CURL error message on a CURL failure; an HTTP error message with the code and body for an error code; the unknown-status error otherwise |
| CppHelpers.CppReceiveCodes | purpleair_api/src/PurpleAirAPIHelpers.cpp:112-120 | for an answered request: the body exactly on 200 and 201, the HTTP error message on the eight error codes, the unknown-status message on any other code |
| CppHelpers.GetRequest | purpleair_api/src/PurpleAirAPIHelpers.cpp:51-94 | a GET of the full URL, with no body, and a key header iff the key is non-empty, carrying the key |
| CppHelpers.SendGet | purpleair_api/src/PurpleAirAPIHelpers.cpp:51-124 | the transport is handed a GET of the full URL without a body, with a key header iff the key is non-empty; its outcome is classified as CppReceive states |
| CppHelpers.PostRequest | purpleair_api/src/PurpleAirAPIHelpers.cpp:126-151 | a POST of the URL as given, with the data as its body and a key header iff the key is non-empty |
| CppHelpers.SendPost | purpleair_api/src/PurpleAirAPIHelpers.cpp:126-179 | the transport is handed a POST of the URL carrying the data, with a key header iff the key is non-empty; its outcome is classified as CppReceive states |
| CppHelpers.DeleteRequest | purpleair_api/src/PurpleAirAPIHelpers.cpp:181-202 | a DELETE of the URL as given, without a body, and a key header iff the key is non-empty |
| CppHelpers.SendDelete | purpleair_api/src/PurpleAirAPIHelpers.cpp:181-230 | the transport is handed a DELETE of the URL without a body, with a key header iff the key is non-empty; its outcome is classified as CppReceive states |
| CppHelpers.DefaultGet | purpleair_api/include/PurpleAirAPIHelpers.hpp:38-43 | with the default arguments, a GET of the URL as given, with no key header |
| CppReadApi.SensorDataUrl | swig/src/PurpleAirReadAPI.cpp:12-34 | the URL is `sensors/<index>`, then `?fields=..&read_key=..` in key order, leaving out empty values |
| CppReadApi.SensorDataMap | swig/src/PurpleAirReadAPI.cpp:19-25 | the map holds exactly the non-empty values, `fields` before `read_key` |
| CppReadApi.MultipleSensorsShape | swig/src/PurpleAirReadAPI.cpp:48-87 | the URL always starts with `sensors?` (not `sensors/`); with every argument empty it is `sensors?` and nothing more |
| CppReadApi.MultipleSensorsLookup | swig/src/PurpleAirReadAPI.cpp:50-79 | the map is sorted and holds, under each name, the value of the one assignment that names it |
| CppReadApi.MultipleSensorsRendered | swig/src/PurpleAirReadAPI.cpp:50-87 | a `name=text` is rendered iff name is one of the ten parameters, its value is non-empty (`max_age` positive), and text is that value escaped |
| CppReadApi.HistoryLookup | swig/src/PurpleAirReadAPI.cpp:101-113 | the history map is sorted and holds each parameter's value exactly when its condition holds |
| CppReadApi.HistoryRendered | swig/src/PurpleAirReadAPI.cpp:101-121 | the timestamps are always rendered; `read_key` and `fields` iff non-empty; `average` iff positive |
| CppReadApi.HistoryTimestampsOnly | swig/src/PurpleAirReadAPI.cpp:98-121 | with no optional values, the URL is `sensors/<index>/history?end_timestamp=..&start_timestamp=..` |
| CppWriteApi.CreateMemberBody | purpleair_api/src/PurpleAirWriteAPI.cpp:11-18 | a POST to `members` with the body `{"sensor_index": N}`, from which N can be read back |
| CppWriteApi.DeleteMemberUrl | purpleair_api/src/PurpleAirWriteAPI.cpp:20-24 | a DELETE of `members/<id>`, from whose URL the id can be read back |
| CppWriteApi.DeleteBelowCreate | purpleair_api/src/PurpleAirWriteAPI.cpp:11-24 | the delete URL is the create URL followed by `/` |
| CppLocalApi.RequestLocalSensorData | purpleair_api/src/PurpleAirLocalAPI.cpp:11-21 | an error iff the address list is empty |
| CppLocalApi.LocalRequest | purpleair_api/src/PurpleAirLocalAPI.cpp:16-20 | only the first address is used; the request is a GET of `http://<first>/json` without key |
| CppLocalApi.LocalUrlRoundTrip | purpleair_api/src/PurpleAirLocalAPI.cpp:18 | the first address can be read back from the URL |
| CppClient.SizeT | purpleair_api/src/PurpleAirAPI.cpp:69 | `size_t` arithmetic: values in range are kept and `npos + 1` wraps to 0 |
| CppClient.Substr | purpleair_api/src/PurpleAirAPI.cpp:72 | `substr(pos, n)` returns the characters from pos on, as many as n or as remain, whichever is fewer: the whole tail when n reaches past the end |
| CppClient.ExtractField | purpleair_api/src/PurpleAirAPI.cpp:64-97 | a field is recorded iff its quoted name occurs in the response; the recorded value has no quotes or spaces |
| CppClient.ExtractBeforeComma | purpleair_api/src/PurpleAirAPI.cpp:68-77 | for `.."name":value,..` with the first occurrence of the name there, the extracted value is the value without quotes and spaces |
| CppClient.ExtractBeforeBrace | purpleair_api/src/PurpleAirAPI.cpp:68-77 | for a last field `.."name":value}..` with the first occurrence of the name there and no comma after the colon, the `}` fallback ends the value and the extracted value is the value without quotes and spaces |
| CppClient.KeyTypeOfResponse | purpleair_api/src/PurpleAirAPI.cpp:86-95 | on the keys answer `{"api_version" : "1.1.1", "time_stamp": 123456789, "api_key_type": "T"}`, the recorded key type is exactly T (for instance `WRITE` or `READ`) |
| CppClient.ExtractWithoutColon | purpleair_api/src/PurpleAirAPI.cpp:69-72 | when no `:` follows the name, `find` gives npos, `npos + 1` wraps to 0, and the value is taken from the start of the response up to its first comma |
| CppClient.CheckAnApiKey | purpleair_api/src/PurpleAirAPI.cpp:58-100 | the check succeeds iff the GET of the keys endpoint succeeds |
| CppClient.CheckRecords | purpleair_api/src/PurpleAirAPI.cpp:64-97 | each record of the key is the extracted field when found, else what it held; the records of other keys are unchanged; the maps stay sorted |
| CppClient.Accept | purpleair_api/src/PurpleAirAPI.cpp:36-50 | accepted iff a non-empty read key is typed `READ` and a non-empty write key `WRITE`; otherwise one of the two type errors |
| CppClient.NewClient | purpleair_api/src/PurpleAirAPI.cpp:8-56 | the combination error iff all three arguments are empty; an address alone gives a client with that one address and empty maps; an accepted client holds its keys and the `READ` and `WRITE` types |
| CppClient.DistinctKeys | purpleair_api/src/PurpleAirAPI.cpp:25-50 | for distinct keys, the constructor succeeds iff the read key's check passes with `READ` and the write key's with `WRITE`; each checked key's records are the fields extracted from its response; a failed read-key request is the constructor's error |
| CppClient.SameKeyRejected | purpleair_api/src/PurpleAirAPI.cpp:36-50 | a non-empty key given as both read and write key is always rejected |

## Left out

- Network I/O (`requests.get/post/delete`, libcurl) is a function parameter. Timeouts,
  connection reuse and CURL initialisation failure ("Failed to initialize CURL") are not
  modelled.
- JSON parsing of Python responses (`convert_requests_text_to_json`): the transport returns
  the payload already parsed, or none.
- `curl_easy_escape` is a parameter. Percent-encoding itself is not modelled.
- `debug_log`, `print` and `std::cout` have no effect on results and are left out.
- The Python constants module (status code lists and the sensor field defaults) is not part
  of this model. The Python code lists and the defaults are parameters. The C++ lists are
  written out as in the C++ source.
- The getters `get_api_versions`, `get_api_key_last_checked` and `get_api_key_type` return a
  record unchanged. They are the fields of `Client` and `CppClient`.
- `PurpleAirReadAPI`, `PurpleAirWriteAPI` and `PurpleAirLocalAPI` constructors that only
  store a key or base URL are folded into the client records and request functions.
- Status codes: the C++ `long` response code is passed to an `int` parameter. The model
  uses the unbounded integer and does not model that narrowing.
- Python dictionary keys are compared by `Value` equality. Python's hashing of `1 == True`
  and similar is not modelled.
- CppClient.ExtractBeforeComma: assumes the response is shorter than `npos`, which holds
  because `std::string::max_size()` is below `npos`.
- CppClient.ExtractBeforeBrace: assumes the response is shorter than `npos`, for the same reason.
- CppClient.KeyTypeOfResponse: assumes the key type is shorter than `npos` less the rest of
  the response, for the same reason.
- CppClient.ExtractField: its own contract fixes only when a field is recorded and that the
  value has no quotes or spaces. The value itself is stated by ExtractBeforeComma,
  ExtractBeforeBrace and ExtractWithoutColon for the shapes they cover. A value followed by
  neither `,` nor `}` (read to the end of the response) has no lemma.
- LocalApi.NewLocal: Python lists are not among the modelled values. A list address passes the
  length check when non-empty and is formatted with its brackets into the URL. No per-element check exists.
- `request_organization_data` does not exist in the Python read API, so it has no model.
- Packaging, SWIG bindings, the C#, JavaScript and other wrappers, and the tests are outside
  the modelled core.

## Findings

| source | as written | input that shows it | evidently intended | confidence | as-written member | corrected member |
|---|---|---|---|---|---|---|
| purpleair_api/PurpleAirAPI.py:66-67 | passes the keyword `ipv4_address_list=` to `PurpleAirLocalAPI.__init__`, whose parameter is `ipv4_address` | `PurpleAirAPI(your_ipv4_address="192.168.1.10")` | the local API is initialised with the address | not executed | Client.AddressAlwaysRejected | Client.LocalOnlyClient |
| purpleair_api/PurpleAirAPI.py:69-83 | after a `READ` key it initialises the write side; after a `WRITE` key it initialises the read side, so a write key given without a read key is never stored | `PurpleAirAPI(your_api_write_key=k)` where the keys endpoint reports k as `WRITE` | each side stores its own key | not executed | Client.WriteOnlyKeyUnset | Client.WriteKeyStored |

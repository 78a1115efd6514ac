/** The C++ local-network facade (purpleair_api/src/PurpleAirLocalAPI.cpp):
    the constructor stores a list of addresses as given; a request goes to
    the first one, and an empty list is rejected only when a request is
    made. */
module CppLocalApi {
  import opened Wrappers
  import Helpers
  import opened CppHelpers

  const NoAddressMessage: string := "No IPv4 addresses provided for local API"

  /** request_local_sensor_data: the GET it sends, or the error it throws
      without sending. */
  function RequestLocalSensorData(addresses: seq<string>): (r: Result<GetArgs>)
    ensures r.Err? <==> |addresses| == 0
    ensures r.Err? ==> r.error == ApiError(NoAddressMessage)
  {
    if |addresses| == 0 then Err(ApiError(NoAddressMessage))
    else Ok(GetArgs("http://" + addresses[0] + "/json", "", "", []))
  }

  /** Only the first address is used: the request is a keyless,
      parameterless GET of `http://<first>/json`, whatever follows it. */
  lemma LocalRequest(first: string, rest: seq<string>, escape: Escape)
    ensures RequestLocalSensorData([first] + rest) == RequestLocalSensorData([first])
    ensures RequestLocalSensorData([first]).Ok? &&
            GetRequest(RequestLocalSensorData([first]).value, escape) ==
            CppRequest(Helpers.Get, "http://" + first + "/json", None, None)
  {
    DefaultGet("http://" + first + "/json", escape);
  }

  /** The address is recovered from the URL by dropping the fixed prefix
      and suffix. */
  lemma LocalUrlRoundTrip(first: string, rest: seq<string>)
    ensures var url := RequestLocalSensorData([first] + rest).value.url;
            |url| == |first| + 12 && url[7..|url| - 5] == first
  {
    var url := "http://" + first + "/json";
    assert url[7..|url| - 5] == first;
  }
}

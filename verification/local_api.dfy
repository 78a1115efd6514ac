/** The Python local-network facade (purpleair_api/PurpleAirLocalAPI.py):
    a sensor on the local network answers at `http://<address>/json`,
    without a key and without parameters. */
module LocalApi {
  import opened Wrappers
  import Text
  import opened Helpers

  const MissingAddressMessage: string := "Must provide the IPv4 address for the senson on your local network"

  /** The constructor: the request URL it stores, or what it raises. A None
      address and an empty string are rejected by the library; an integer or
      a boolean has no len(), which Python rejects with a TypeError. */
  function NewLocal(address: Value): (r: Result<string>)
    ensures address.PyNone? ==> r == Err(ApiError(MissingAddressMessage))
    ensures address == PyStr("") ==> r == Err(ApiError(MissingAddressMessage))
    ensures (address.PyInt? || address.PyBool?) ==> r.Err? && r.error.PyError? && r.error.kind == TypeError
    ensures r.Ok? <==> address.PyStr? && |address.s| > 0
    ensures r.Ok? ==> r.value == "http://" + address.s + "/json"
  {
    match address
    case PyNone => Err(ApiError(MissingAddressMessage))
    case PyStr(s) => if |s| == 0 then Err(ApiError(MissingAddressMessage)) else Ok("http://" + s + "/json")
    case _ => Err(PyError(TypeError, "object of type '" + (if address.PyInt? then "int" else "bool") + "' has no len()"))
  }

  /** request_local_sensor_data: the stored URL, no key, no separator, no
      parameter dictionary. */
  function RequestLocalSensorData(url: string): GetCall
  {
    GetCall(Some(url), PyNone, PyNone, None)
  }

  /** The local request is a GET without a key header to the stored URL
      with only quotes and spaces removed. */
  lemma LocalRequest(address: string)
    requires |address| > 0
    ensures NewLocal(PyStr(address)).Ok?
    ensures PrepareGet(RequestLocalSensorData(NewLocal(PyStr(address)).value)) ==
            Ok(Request(Get, Text.StripQuotesAndSpaces("http://" + address + "/json"), None, None))
  {
  }

  /** For an address without quotes or spaces, the URL sent is exactly
      `http://<address>/json`; the address is recovered from it by
      dropping the fixed prefix and suffix. */
  lemma LocalUrlRoundTrip(address: string)
    requires |address| > 0 && '"' !in address && ' ' !in address
    ensures var url := PrepareGet(RequestLocalSensorData(NewLocal(PyStr(address)).value)).value.url;
            |url| == |address| + 12 && url[7..|url| - 5] == address
  {
    var url := "http://" + address + "/json";
    assert '"' !in url && ' ' !in url by {
      assert url == "http://" + address + "/json";
    }
    Text.StripClean(url);
    assert url[7..|url| - 5] == address;
  }
}

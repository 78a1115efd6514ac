/** The Python composer (purpleair_api/PurpleAirAPI.py): a PurpleAirAPI is a
    read, write and local client at once. Its constructor refuses to be
    built from nothing, asks the server about each key it is given (GET
    `keys`), records the server's answer per key, and insists that the read
    key is a READ key and the write key a WRITE key.

    The constructor is modelled twice. NewClientAsWritten follows the source
    line by line, including two defects (see the Findings of the README):
    the local facade is initialised with a keyword it does not accept, and
    the read and write facades are initialised crosswise, so a client built
    from a write key alone never stores that key. NewClient is the
    constructor as evidently intended; without an address the two differ
    only in the write key they store. */
module Client {
  import opened Wrappers
  import Text
  import Status
  import opened Helpers
  import LocalApi

  const CombinationMessage: string :=
    "Ensure that " + "the right combination of parameters have been provided! " +
    "`your_api_read_key` or `your_api_write_key` for external internet requests. Or " +
    "just `your_ipv4_address` for local network requests"

  const NotReadKeyMessage: string := "Ensure 'your_api_read_key' is a read key."
  const NotWriteKeyMessage: string := "Ensure 'your_api_write_key' is a write key"

  /** The attributes of a PurpleAirAPI object. An attribute the constructor
      never assigns is None (reading it raises AttributeError); the three
      dictionaries map a key to what the server said about it. */
  datatype Client = Client(
    readKey: Value,
    writeKey: Option<Value>,
    baseUrl: Option<string>,
    localUrl: Option<string>,
    versions: map<Value, Json>,
    lastChecked: map<Value, Json>,
    keyTypes: map<Value, Json>)

  /** The object as it stands before any key is checked: the read key
      stored, the base URL present exactly when some key is truthy, the
      three dictionaries empty. */
  function Initial(readKey: Value, writeKey: Value): Client
  {
    Client(readKey, None, if Truthy(readKey) || Truthy(writeKey) then Some(BaseUrl) else None,
           None, map[], map[], map[])
  }

  /** The GET _check_an_api_key sends for a key: `keys` under the base URL,
      with the key in the header. */
  function KeyCheckCall(base: string, key: Value): GetCall
  {
    GetCall(Some(base + "keys"), key, PyNone, None)
  }

  /** The server's answer to the key check, given the key is not None. */
  function KeyCheckAnswer(codes: Status.Codes, send: Transport, base: string, key: Value): Result<Option<Json>>
  {
    SendGet(codes, KeyCheckCall(base, key), send)
  }

  /** _check_an_api_key: with no base URL the concatenation `None + "keys"`
      raises; otherwise the three fields of the server's answer are stored
      under the key, and nothing else changes. */
  function CheckAnApiKey(codes: Status.Codes, send: Transport, c: Client, key: Value): (r: Result<Client>)
    ensures c.baseUrl.None? ==> r.Err? && r.error.PyError? && r.error.kind == TypeError
    ensures r.Ok? <==> c.baseUrl.Some? &&
                       var a := KeyCheckAnswer(codes, send, c.baseUrl.value, key);
                       a.Ok? && a.value.Some? && a.value.value.Obj? &&
                       var f := a.value.value.fields;
                       "api_version" in f && "time_stamp" in f && "api_key_type" in f
    ensures r.Ok? ==> var f := KeyCheckAnswer(codes, send, c.baseUrl.value, key).value.value.fields;
                      r.value == c.(versions := c.versions[key := f["api_version"]],
                                    lastChecked := c.lastChecked[key := f["time_stamp"]],
                                    keyTypes := c.keyTypes[key := f["api_key_type"]])
  {
    if c.baseUrl.None? then
      Err(PyError(TypeError, "unsupported operand type(s) for +: 'NoneType' and 'str'"))
    else
      var payload :- KeyCheckAnswer(codes, send, c.baseUrl.value, key);
      var version :- Lookup(payload, "api_version");
      var checked :- Lookup(payload, "time_stamp");
      var kind :- Lookup(payload, "api_key_type");
      Ok(c.(versions := c.versions[key := version],
            lastChecked := c.lastChecked[key := checked],
            keyTypes := c.keyTypes[key := kind]))
  }

  /** The key check is a GET of https://api.purpleair.com/v1/keys carrying
      the key. */
  lemma KeyCheckRequest(key: Value)
    requires !key.PyNone?
    ensures PrepareGet(KeyCheckCall(BaseUrl, key)) == Ok(Request(Get, BaseUrl + "keys", Some(Show(key)), None))
  {
    StripUnderBase("keys");
  }

  /** Lines 43-64: the initial object, then the read key's check, then the
      write key's check, each only for a key that is not None. */
  function CheckKeys(codes: Status.Codes, send: Transport, readKey: Value, writeKey: Value): (r: Result<Client>)
    ensures r.Ok? ==> r.value.readKey == readKey && r.value.writeKey.None? && r.value.localUrl.None?
    ensures r.Ok? ==> r.value.baseUrl == Initial(readKey, writeKey).baseUrl
    ensures r.Ok? ==> forall k :: k in r.value.keyTypes <==> !k.PyNone? && (k == readKey || k == writeKey)
    ensures r.Ok? ==> r.value.versions.Keys == r.value.keyTypes.Keys && r.value.lastChecked.Keys == r.value.keyTypes.Keys
  {
    var c0 := Initial(readKey, writeKey);
    var c1 :- if readKey.PyNone? then Ok(c0) else CheckAnApiKey(codes, send, c0, readKey);
    if writeKey.PyNone? then Ok(c1) else CheckAnApiKey(codes, send, c1, writeKey)
  }

  /** Every recorded type is the `api_key_type` the server gave for that
      key's check; the read key's check is made first, so a failure there
      is the constructor's failure. */
  lemma CheckKeysRecords(codes: Status.Codes, send: Transport, readKey: Value, writeKey: Value)
    ensures var r := CheckKeys(codes, send, readKey, writeKey);
            r.Ok? ==> forall k :: k in r.value.keyTypes ==>
                        var a := KeyCheckAnswer(codes, send, BaseUrl, k);
                        a.Ok? && a.value.Some? && a.value.value.Obj? &&
                        "api_key_type" in a.value.value.fields &&
                        r.value.keyTypes[k] == a.value.value.fields["api_key_type"]
    ensures !readKey.PyNone? && CheckAnApiKey(codes, send, Initial(readKey, writeKey), readKey).Err? ==>
              CheckKeys(codes, send, readKey, writeKey) == Err(CheckAnApiKey(codes, send, Initial(readKey, writeKey), readKey).error)
  {
    var c0 := Initial(readKey, writeKey);
    if !readKey.PyNone? && CheckAnApiKey(codes, send, c0, readKey).Ok? {
      assert c0.baseUrl == Some(BaseUrl);
    }
  }

  /** Lines 69-83 as written: a READ read key initialises the WRITE facade
      (storing the write key) and a WRITE write key the READ facade (storing
      the read key again); any other reported type raises. */
  function CrossCheckAsWritten(c: Client, readKey: Value, writeKey: Value): (r: Result<Client>)
    requires !readKey.PyNone? ==> readKey in c.keyTypes
    requires !writeKey.PyNone? ==> writeKey in c.keyTypes
    ensures r.Ok? <==> (!readKey.PyNone? ==> c.keyTypes[readKey] == Str("READ")) &&
                       (!writeKey.PyNone? ==> c.keyTypes[writeKey] == Str("WRITE"))
    ensures !readKey.PyNone? && c.keyTypes[readKey] != Str("READ") ==> r == Err(ApiError(NotReadKeyMessage))
    ensures r.Ok? ==> r.value.keyTypes == c.keyTypes && r.value.localUrl == c.localUrl
    ensures r.Ok? ==> r.value.writeKey == (if readKey.PyNone? then c.writeKey else Some(writeKey))
  {
    var c1 :- if readKey.PyNone? then Ok(c)
              else if c.keyTypes[readKey] == Str("READ") then Ok(c.(writeKey := Some(writeKey), baseUrl := Some(BaseUrl)))
              else Err(ApiError(NotReadKeyMessage));
    if writeKey.PyNone? then Ok(c1)
    else if c1.keyTypes[writeKey] == Str("WRITE") then Ok(c1.(readKey := readKey, baseUrl := Some(BaseUrl)))
    else Err(ApiError(NotWriteKeyMessage))
  }

  /** PurpleAirAPI.__init__ as the source writes it. The TypeError text is
      the one Python 3.10 and later give, which names the class as well as
      __init__. */
  function NewClientAsWritten(codes: Status.Codes, send: Transport, readKey: Value, writeKey: Value,
                              address: Value): (r: Result<Client>)
    ensures readKey.PyNone? && writeKey.PyNone? && address.PyNone? ==> r == Err(ApiError(CombinationMessage))
    ensures !address.PyNone? ==> r.Err?
  {
    if readKey.PyNone? && writeKey.PyNone? && address.PyNone? then Err(ApiError(CombinationMessage))
    else
      var c :- CheckKeys(codes, send, readKey, writeKey);
      if !address.PyNone? then
        Err(PyError(TypeError, "PurpleAirLocalAPI.__init__() got an unexpected keyword argument 'ipv4_address_list'"))
      else
        CrossCheckAsWritten(c, readKey, writeKey)
  }

  /** Finding: an address alone, the documented way to reach a local sensor,
      never yields a client; the failure is Python's, not the library's. */
  lemma AddressAlwaysRejected(codes: Status.Codes, send: Transport, address: string)
    ensures NewClientAsWritten(codes, send, PyNone, PyNone, PyStr(address)) ==
            Err(PyError(TypeError, "PurpleAirLocalAPI.__init__() got an unexpected keyword argument 'ipv4_address_list'"))
  {
    var c := Initial(PyNone, PyNone);
    assert CheckKeys(codes, send, PyNone, PyNone) == Ok(c);
  }

  /** self._your_api_write_key, which the post_* methods read. */
  function WriteKeyOf(c: Client): (r: Result<Value>)
    ensures r.Ok? <==> c.writeKey.Some?
    ensures r.Ok? ==> r.value == c.writeKey.value
    ensures r.Err? ==> r.error == PyError(AttributeError, "_your_api_write_key")
  {
    match c.writeKey
    case None => Err(PyError(AttributeError, "_your_api_write_key"))
    case Some(k) => Ok(k)
  }

  /** Finding: a client built from a write key alone, which the server
      confirms as a WRITE key, cannot make a single write request. */
  lemma WriteOnlyKeyUnset(codes: Status.Codes, send: Transport, writeKey: Value)
    requires NewClientAsWritten(codes, send, PyNone, writeKey, PyNone).Ok?
    ensures WriteKeyOf(NewClientAsWritten(codes, send, PyNone, writeKey, PyNone).value) ==
            Err(PyError(AttributeError, "_your_api_write_key"))
  {
  }

  /** Lines 69-83 as intended: each confirmed key initialises its own
      facade, which stores that key. */
  function CrossCheck(c: Client, readKey: Value, writeKey: Value): (r: Result<Client>)
    requires !readKey.PyNone? ==> readKey in c.keyTypes
    requires !writeKey.PyNone? ==> writeKey in c.keyTypes
    ensures r.Ok? <==> (!readKey.PyNone? ==> c.keyTypes[readKey] == Str("READ")) &&
                       (!writeKey.PyNone? ==> c.keyTypes[writeKey] == Str("WRITE"))
    ensures !readKey.PyNone? && c.keyTypes[readKey] != Str("READ") ==> r == Err(ApiError(NotReadKeyMessage))
    ensures r.Ok? ==> r.value.keyTypes == c.keyTypes && r.value.localUrl == c.localUrl
    ensures r.Ok? ==> r.value.readKey == (if readKey.PyNone? then c.readKey else readKey)
    ensures r.Ok? ==> r.value.writeKey == (if writeKey.PyNone? then c.writeKey else Some(writeKey))
  {
    var c1 :- if readKey.PyNone? then Ok(c)
              else if c.keyTypes[readKey] == Str("READ") then Ok(c.(readKey := readKey, baseUrl := Some(BaseUrl)))
              else Err(ApiError(NotReadKeyMessage));
    if writeKey.PyNone? then Ok(c1)
    else if c1.keyTypes[writeKey] == Str("WRITE") then Ok(c1.(writeKey := Some(writeKey), baseUrl := Some(BaseUrl)))
    else Err(ApiError(NotWriteKeyMessage))
  }

  /** PurpleAirAPI.__init__ as evidently intended: the address initialises
      the local facade under its own parameter name, and each key its own
      facade. */
  function NewClient(codes: Status.Codes, send: Transport, readKey: Value, writeKey: Value,
                     address: Value): (r: Result<Client>)
    ensures readKey.PyNone? && writeKey.PyNone? && address.PyNone? ==> r == Err(ApiError(CombinationMessage))
    ensures r.Ok? ==> (r.value.baseUrl.Some? <==> Truthy(readKey) || Truthy(writeKey))
    ensures r.Ok? ==> forall k :: k in r.value.keyTypes <==> !k.PyNone? && (k == readKey || k == writeKey)
    ensures r.Ok? ==> (!readKey.PyNone? ==> r.value.keyTypes[readKey] == Str("READ")) &&
                      (!writeKey.PyNone? ==> r.value.keyTypes[writeKey] == Str("WRITE"))
    ensures r.Ok? && !writeKey.PyNone? ==> r.value.writeKey == Some(writeKey)
    ensures r.Ok? && !address.PyNone? ==>
              LocalApi.NewLocal(address).Ok? && r.value.localUrl == Some(LocalApi.NewLocal(address).value)
  {
    if readKey.PyNone? && writeKey.PyNone? && address.PyNone? then Err(ApiError(CombinationMessage))
    else
      var c :- CheckKeys(codes, send, readKey, writeKey);
      var c' :- if address.PyNone? then Ok(c)
                else var url :- LocalApi.NewLocal(address); Ok(c.(localUrl := Some(url)));
      CrossCheck(c', readKey, writeKey)
  }

  /** The intended constructor reaches a local sensor from its address
      alone. */
  lemma LocalOnlyClient(codes: Status.Codes, send: Transport, address: string)
    requires |address| > 0
    ensures NewClient(codes, send, PyNone, PyNone, PyStr(address)).Ok?
    ensures NewClient(codes, send, PyNone, PyNone, PyStr(address)).value.localUrl == Some("http://" + address + "/json")
  {
    assert CheckKeys(codes, send, PyNone, PyNone) == Ok(Initial(PyNone, PyNone));
  }

  /** The intended constructor stores a confirmed write key. */
  lemma WriteKeyStored(codes: Status.Codes, send: Transport, readKey: Value, writeKey: Value, address: Value)
    requires !writeKey.PyNone? && NewClient(codes, send, readKey, writeKey, address).Ok?
    ensures WriteKeyOf(NewClient(codes, send, readKey, writeKey, address).value) == Ok(writeKey)
  {
  }

  /** Without an address, the two constructors accept and reject the same
      arguments, and agree on everything but the write key: the source
      stores it exactly when a read key is given, whether or not a write
      key is. */
  lemma ConstructorsAgree(codes: Status.Codes, send: Transport, readKey: Value, writeKey: Value)
    ensures var w := NewClientAsWritten(codes, send, readKey, writeKey, PyNone);
            var f := NewClient(codes, send, readKey, writeKey, PyNone);
            (w.Ok? <==> f.Ok?) && (w.Err? ==> w == f) &&
            (w.Ok? ==> w.value == f.value.(writeKey := if readKey.PyNone? then None else Some(writeKey)))
  {
    var r := CheckKeys(codes, send, readKey, writeKey);
    if r.Ok? {
      CrossChecksAgree(r.value, readKey, writeKey);
    }
  }

  /** The two cross-checks accept and reject alike, and differ only in the
      write key they leave. */
  lemma CrossChecksAgree(c: Client, readKey: Value, writeKey: Value)
    requires !readKey.PyNone? ==> readKey in c.keyTypes
    requires !writeKey.PyNone? ==> writeKey in c.keyTypes
    requires c.readKey == readKey && c.writeKey.None?
    ensures var w := CrossCheckAsWritten(c, readKey, writeKey);
            var f := CrossCheck(c, readKey, writeKey);
            (w.Ok? <==> f.Ok?) && (w.Err? ==> w == f) &&
            (w.Ok? ==> w.value == f.value.(writeKey := if readKey.PyNone? then None else Some(writeKey)))
  {
  }

  /** The same string as read key and write key never makes a client: both
      checks send the same request, so the server reports one type for
      both, and it cannot be READ and WRITE at once. */
  lemma SameKeyTwiceRejected(codes: Status.Codes, send: Transport, key: Value, address: Value)
    requires !key.PyNone?
    ensures NewClientAsWritten(codes, send, key, key, address).Err?
    ensures NewClient(codes, send, key, key, address).Err?
  {
    var c0 := Initial(key, key);
    var r1 := CheckAnApiKey(codes, send, c0, key);
    if r1.Ok? {
      var r2 := CheckAnApiKey(codes, send, r1.value, key);
      assert r1.value.baseUrl == c0.baseUrl;
      if r2.Ok? {
        assert r2.value.keyTypes[key] == r1.value.keyTypes[key];
      }
    }
  }
}

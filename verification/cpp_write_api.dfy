/** The C++ write facade (purpleair_api/src/PurpleAirWriteAPI.cpp): adding a
    sensor as a member by its index, and deleting a member by its id, both
    with the instance write key. */
module CppWriteApi {
  import opened Wrappers
  import Text
  import Helpers
  import opened CppHelpers
  import CppReadApi

  const MemberBodyPrefix: string := "{\"sensor_index\": "

  /** post_create_member: a POST to `members` with the index as JSON. */
  function PostCreateMember(writeKey: string, sensorIndex: CppReadApi.Int32): CppRequest
  {
    PostRequest(Helpers.BaseUrl + "members", writeKey, MemberBodyPrefix + Text.IntToDecimal(sensorIndex) + "}")
  }

  /** delete_member: a DELETE of `members/<id>`. */
  function DeleteMember(writeKey: string, memberId: CppReadApi.Int32): CppRequest
  {
    DeleteRequest(Helpers.BaseUrl + "members/" + Text.IntToDecimal(memberId), writeKey)
  }

  /** The body is a one-field JSON object whose value reads back as the
      sensor index; the request is a POST with the write key (if any). */
  lemma CreateMemberBody(writeKey: string, sensorIndex: CppReadApi.Int32)
    ensures var r := PostCreateMember(writeKey, sensorIndex);
            r.verb == Helpers.Post && r.url == Helpers.BaseUrl + "members" && r.apiKey == KeyHeader(writeKey) &&
            r.body.Some? && |r.body.value| > |MemberBodyPrefix| + 1 &&
            r.body.value[..|MemberBodyPrefix|] == MemberBodyPrefix && r.body.value[|r.body.value| - 1] == '}' &&
            Text.IntValue(r.body.value[|MemberBodyPrefix|..|r.body.value| - 1]) == sensorIndex
  {
    var d := Text.IntToDecimal(sensorIndex);
    var body := MemberBodyPrefix + d + "}";
    assert body[|MemberBodyPrefix|..|body| - 1] == d;
    assert body[..|MemberBodyPrefix|] == MemberBodyPrefix;
    Text.IntDecimalRoundTrip(sensorIndex);
  }

  /** The member URL ends in the decimal member id, which reads back as the
      id; the request is a DELETE without a body, with the write key. */
  lemma DeleteMemberUrl(writeKey: string, memberId: CppReadApi.Int32)
    ensures var r := DeleteMember(writeKey, memberId);
            var prefix := Helpers.BaseUrl + "members/";
            r.verb == Helpers.Delete && r.body.None? && r.apiKey == KeyHeader(writeKey) &&
            |prefix| < |r.url| && r.url[..|prefix|] == prefix &&
            Text.IntValue(r.url[|prefix|..]) == memberId
  {
    var prefix := Helpers.BaseUrl + "members/";
    var url := prefix + Text.IntToDecimal(memberId);
    assert url[|prefix|..] == Text.IntToDecimal(memberId);
    assert url[..|prefix|] == prefix;
    Text.IntDecimalRoundTrip(memberId);
  }

  /** A member is deleted at a URL directly below the one it is created at. */
  lemma DeleteBelowCreate(writeKey: string, sensorIndex: CppReadApi.Int32, memberId: CppReadApi.Int32)
    ensures var c := PostCreateMember(writeKey, sensorIndex).url;
            var d := DeleteMember(writeKey, memberId).url;
            |c| < |d| && d[..|c|] == c && d[|c|] == '/'
  {
    var c := Helpers.BaseUrl + "members";
    var d := Helpers.BaseUrl + "members/" + Text.IntToDecimal(memberId);
    assert d == c + "/" + Text.IntToDecimal(memberId);
  }
}

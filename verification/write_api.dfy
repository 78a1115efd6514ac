/** The Python write facade (purpleair_api/PurpleAirWriteAPI.py): creating
    and deleting groups and group members. Each request method builds the
    arguments of send_url_post_request or send_url_delete_request; the one
    with a choice to make, post_create_member, picks one of three parameter
    layouts or rejects the combination before anything is sent. */
module WriteApi {
  import opened Wrappers
  import Status
  import opened Helpers

  function PostCreateGroupData(key: Value, name: Value): BodyCall
  {
    BodyCall(BaseUrl + "groups", key, [("name", ToJson(name))])
  }

  /** Creating a group always sends its name as the JSON body (even a None
      name, as null), with the write key in the header. */
  lemma CreateGroupRequest(key: Value, name: Value)
    ensures BodyRequest(Post, PostCreateGroupData(key, name)) ==
            Request(Post, BaseUrl + "groups", Some(Show(key)), Some([("name", ToJson(name))]))
  {
  }

  /** The three layouts of post_create_member:
      1. a sensor id alone;
      2. a sensor index alone;
      3. a sensor id with the owner's email, and the location type if any. */
  predicate ById(sensorIndex: Value, sensorId: Value, ownerEmail: Value, locationType: Value) {
    sensorIndex.PyNone? && !sensorId.PyNone? && ownerEmail.PyNone? && locationType.PyNone?
  }

  predicate ByIndex(sensorIndex: Value, sensorId: Value, ownerEmail: Value, locationType: Value) {
    !sensorIndex.PyNone? && sensorId.PyNone? && ownerEmail.PyNone? && locationType.PyNone?
  }

  predicate ByPrivateId(sensorIndex: Value, sensorId: Value, ownerEmail: Value) {
    sensorIndex.PyNone? && !sensorId.PyNone? && !ownerEmail.PyNone?
  }

  const InvalidMemberMessage: string := "Invalid configuration of method parameters!"

  /** The POST post_create_member sends, or the error it raises without
      sending. The source tests the layouts in order 1, 2, 3. */
  function PostCreateMember(key: Value, groupId: Value, sensorIndex: Value, sensorId: Value,
                            ownerEmail: Value, locationType: Value): (r: Result<BodyCall>)
    ensures r.Ok? <==> ById(sensorIndex, sensorId, ownerEmail, locationType) ||
                       ByIndex(sensorIndex, sensorId, ownerEmail, locationType) ||
                       ByPrivateId(sensorIndex, sensorId, ownerEmail)
    ensures r.Err? ==> r.error == ApiError(InvalidMemberMessage)
    ensures r.Ok? ==> r.value.url == BaseUrl + "groups/" + Show(groupId) + "/members" && r.value.apiKey == key
    ensures ById(sensorIndex, sensorId, ownerEmail, locationType) ==>
              r.Ok? && r.value.body == [("sensor_id", Str(Show(sensorId)))]
    ensures ByIndex(sensorIndex, sensorId, ownerEmail, locationType) ==>
              r.Ok? && r.value.body == [("sensor_index", ToJson(sensorIndex))]
    ensures ByPrivateId(sensorIndex, sensorId, ownerEmail) ==>
              r.Ok? && r.value.body == [("sensor_id", Str(Show(sensorId))), ("owner_email", ToJson(ownerEmail)),
                                        ("location_type", ToJson(locationType))]
  {
    var url := BaseUrl + "groups/" + Show(groupId) + "/members";
    if sensorIndex.PyNone? && !sensorId.PyNone? && ownerEmail.PyNone? && locationType.PyNone? then
      Ok(BodyCall(url, key, [("sensor_id", Str(Show(sensorId)))]))
    else if !sensorIndex.PyNone? && sensorId.PyNone? && ownerEmail.PyNone? && locationType.PyNone? then
      Ok(BodyCall(url, key, [("sensor_index", ToJson(sensorIndex))]))
    else if sensorIndex.PyNone? && !sensorId.PyNone? && !ownerEmail.PyNone? then
      Ok(BodyCall(url, key, [("sensor_id", Str(Show(sensorId))), ("owner_email", ToJson(ownerEmail)),
                             ("location_type", ToJson(locationType))]))
    else
      Err(ApiError(InvalidMemberMessage))
  }

  /** The layouts never overlap, so the order in which the source tests them
      does not matter; and each is recognisable from the body it sends. */
  lemma MemberLayoutsExclusive(key: Value, groupId: Value, sensorIndex: Value, sensorId: Value,
                               ownerEmail: Value, locationType: Value)
    ensures !(ById(sensorIndex, sensorId, ownerEmail, locationType) && ByIndex(sensorIndex, sensorId, ownerEmail, locationType))
    ensures !(ById(sensorIndex, sensorId, ownerEmail, locationType) && ByPrivateId(sensorIndex, sensorId, ownerEmail))
    ensures !(ByIndex(sensorIndex, sensorId, ownerEmail, locationType) && ByPrivateId(sensorIndex, sensorId, ownerEmail))
    ensures var r := PostCreateMember(key, groupId, sensorIndex, sensorId, ownerEmail, locationType);
            r.Ok? ==> (|r.value.body| == 3 <==> ByPrivateId(sensorIndex, sensorId, ownerEmail)) &&
                      (|r.value.body| > 0 && r.value.body[0].0 == "sensor_index" <==>
                         ByIndex(sensorIndex, sensorId, ownerEmail, locationType))
  {
    var r := PostCreateMember(key, groupId, sensorIndex, sensorId, ownerEmail, locationType);
    if r.Ok? && !ByIndex(sensorIndex, sensorId, ownerEmail, locationType) {
      assert r.value.body[0].0 == "sensor_id";
      assert "sensor_id"[8] != "sensor_index"[8];
    }
  }

  /** A sensor index together with a sensor id, or with an owner email, is
      always rejected; so is giving nothing to identify the sensor. */
  lemma MemberRejections(key: Value, groupId: Value, sensorIndex: Value, sensorId: Value,
                         ownerEmail: Value, locationType: Value)
    ensures !sensorIndex.PyNone? && !sensorId.PyNone? ==>
              PostCreateMember(key, groupId, sensorIndex, sensorId, ownerEmail, locationType) == Err(ApiError(InvalidMemberMessage))
    ensures !sensorIndex.PyNone? && !ownerEmail.PyNone? ==>
              PostCreateMember(key, groupId, sensorIndex, sensorId, ownerEmail, locationType) == Err(ApiError(InvalidMemberMessage))
    ensures sensorIndex.PyNone? && sensorId.PyNone? ==>
              PostCreateMember(key, groupId, sensorIndex, sensorId, ownerEmail, locationType) == Err(ApiError(InvalidMemberMessage))
    ensures sensorIndex.PyNone? && !sensorId.PyNone? && ownerEmail.PyNone? && !locationType.PyNone? ==>
              PostCreateMember(key, groupId, sensorIndex, sensorId, ownerEmail, locationType) == Err(ApiError(InvalidMemberMessage))
  {
  }

  /** post_create_member end to end: a rejected layout raises before the
      transport is used; an accepted one is posted. */
  function CreateMember(codes: Status.Codes, send: Transport, key: Value, groupId: Value, sensorIndex: Value,
                        sensorId: Value, ownerEmail: Value, locationType: Value): (r: Result<Option<Json>>)
    ensures PostCreateMember(key, groupId, sensorIndex, sensorId, ownerEmail, locationType).Err? ==>
              r == Err(ApiError(InvalidMemberMessage))
    ensures PostCreateMember(key, groupId, sensorIndex, sensorId, ownerEmail, locationType).Ok? ==>
              r == Receive(codes, send(BodyRequest(Post, PostCreateMember(key, groupId, sensorIndex, sensorId,
                                                                           ownerEmail, locationType).value)))
  {
    var call :- PostCreateMember(key, groupId, sensorIndex, sensorId, ownerEmail, locationType);
    SendPost(codes, call, send)
  }

  /** post_delete_group: a DELETE with no body. */
  function PostDeleteGroup(key: Value, groupId: Value): (r: BodyCall)
    ensures r.url == BaseUrl + "groups/" + Show(groupId) && r.apiKey == key
    ensures BodyRequest(Delete, r).body.None?
  {
    BodyCall(BaseUrl + "groups/" + Show(groupId), key, [])
  }

  /** post_delete_member: a DELETE with no body. */
  function PostDeleteMember(key: Value, groupId: Value, memberId: Value): (r: BodyCall)
    ensures r.url == BaseUrl + "groups/" + Show(groupId) + "/members/" + Show(memberId) && r.apiKey == key
    ensures BodyRequest(Delete, r).body.None?
  {
    BodyCall(BaseUrl + "groups/" + Show(groupId) + "/members/" + Show(memberId), key, [])
  }

  /** Deleting a member addresses a URL strictly below its group's. */
  lemma DeleteMemberUnderGroup(key: Value, groupId: Value, memberId: Value)
    ensures var g := PostDeleteGroup(key, groupId).url;
            var m := PostDeleteMember(key, groupId, memberId).url;
            |g| < |m| && m[..|g|] == g
  {
    var g := PostDeleteGroup(key, groupId).url;
    var m := PostDeleteMember(key, groupId, memberId).url;
    assert m == g + ("/members/" + Show(memberId));
  }
}

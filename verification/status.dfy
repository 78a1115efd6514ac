/** The status classifier shared by both implementations: a code in the
    success list means success, a code in the error list means failure, and
    any other code is an error in its own right. */
module Status {
  import opened Wrappers
  import Text

  /** The literal code lists of the C++ helpers. The Python helpers read
      theirs from a constants module that is not part of this model, so the
      Python side takes them as a parameter (see Codes). */
  const CppSuccessCodes: seq<int> := [200, 201]
  const CppErrorCodes: seq<int> := [400, 403, 404, 429, 500, 502, 503, 504]

  datatype Codes = Codes(success: seq<int>, errors: seq<int>)

  /** Some(true) for success, Some(false) for failure, None for a code in
      neither list. The success list is consulted first. */
  function Classify(status: int, codes: Codes): Option<bool>
  {
    if status in codes.success then Some(true)
    else if status in codes.errors then Some(false)
    else None
  }

  /** std::find over a code list: the position of the first occurrence of
      the code, or the length of the list when it does not occur. */
  method FindCode(list: seq<int>, code: int) returns (pos: nat)
    ensures pos <= |list|
    ensures pos < |list| ==> list[pos] == code
    ensures forall j :: 0 <= j < pos ==> list[j] != code
  {
    pos := 0;
    while pos < |list| && list[pos] != code
      invariant pos <= |list|
      invariant forall j :: 0 <= j < pos ==> list[j] != code
    {
      pos := pos + 1;
    }
  }

  /** verify_request_status_codes, as both implementations write it: search
      the success list, then the error list. */
  method VerifyRequestStatusCode(status: int, codes: Codes) returns (r: Option<bool>)
    ensures r == Some(true) <==> status in codes.success
    ensures r == Some(false) <==> status !in codes.success && status in codes.errors
    ensures r == None <==> status !in codes.success && status !in codes.errors
    ensures r == Classify(status, codes)
  {
    var p := FindCode(codes.success, status);
    if p < |codes.success| {
      return Some(true);
    }
    var q := FindCode(codes.errors, status);
    if q < |codes.errors| {
      return Some(false);
    }
    return None;
  }

  /** The Python classifier: an unrecognised code raises, with the message
      spelled as the Python source spells it. */
  function VerifyStatusPy(status: int, codes: Codes): (r: Result<bool>)
    ensures r == Ok(true) <==> status in codes.success
    ensures r == Ok(false) <==> status !in codes.success && status in codes.errors
    ensures r.Err? <==> status !in codes.success && status !in codes.errors
  {
    match Classify(status, codes)
    case Some(b) => Ok(b)
    case None => Err(ApiError("Unkown status code - " + Text.IntToDecimal(status) + "!"))
  }

  /** The C++ classifier over its literal lists. */
  function VerifyStatusCpp(status: int): Result<bool>
  {
    match Classify(status, Codes(CppSuccessCodes, CppErrorCodes))
    case Some(b) => Ok(b)
    case None => Err(ApiError("Unknown status code - " + Text.IntToDecimal(status) + "!"))
  }

  /** The C++ classification spelled out code by code. */
  lemma CppClassification(status: int)
    ensures VerifyStatusCpp(status) == Ok(true) <==> status == 200 || status == 201
    ensures VerifyStatusCpp(status) == Ok(false) <==>
              status in {400, 403, 404, 429, 500, 502, 503, 504}
    ensures VerifyStatusCpp(status).Err? <==>
              status !in {200, 201, 400, 403, 404, 429, 500, 502, 503, 504}
  {
  }
}

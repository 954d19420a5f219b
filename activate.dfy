/**
 * `check_error_response`: the validator attached to activation requests.
 * A `400 Bad Request` whose `error.code` is `RoleAssignmentExists` or
 * `RoleAssignmentRequestExists` means the role is already active or already
 * requested, and counts as success; every other failure status is an error.
 */
module Activate {
  import opened Wrappers
  import opened Json

  /** `reqwest::StatusCode`: a three-digit code. */
  type StatusCode = x: int | 100 <= x < 1000 witness 200

  const BadRequest: StatusCode := 400
  const TooManyRequests: StatusCode := 429

  /** `StatusCode::is_success` */
  predicate IsSuccess(status: StatusCode) {
    200 <= status < 300
  }

  /** The codes that mean the requested state already holds or is in flight. */
  const RoleAssignmentExists := "RoleAssignmentExists"
  const RoleAssignmentRequestExists := "RoleAssignmentRequestExists"

  /** `body["error"]["code"].as_str()` */
  function ErrorCode(body: Value): Option<string> {
    AsStr(At(body, ["error", "code"]))
  }

  /** The failure carries the status and the full body for diagnosis. */
  datatype ValidationError = RequestFailed(status: StatusCode, body: Value)

  /** `check_error_response` */
  function CheckErrorResponse(status: StatusCode, body: Value): (r: Result<(), ValidationError>)
    ensures IsSuccess(status) ==> r.Ok?
    ensures !IsSuccess(status) && status != BadRequest ==> r == Err(RequestFailed(status, body))
    ensures status == BadRequest ==>
      (r.Ok? <==> ErrorCode(body) == Some(RoleAssignmentExists) || ErrorCode(body) == Some(RoleAssignmentRequestExists))
    ensures r.Err? ==> r.error == RequestFailed(status, body)
  {
    if !IsSuccess(status) then
      if status == BadRequest && ErrorCode(body) == Some(RoleAssignmentExists) then Ok(())
      else if status == BadRequest && ErrorCode(body) == Some(RoleAssignmentRequestExists) then Ok(())
      else Err(RequestFailed(status, body))
    else Ok(())
  }

  /** The body decides nothing unless the status is exactly 400. */
  lemma BodyMattersOnlyOnBadRequest(status: StatusCode, body1: Value, body2: Value)
    requires status != BadRequest
    ensures CheckErrorResponse(status, body1).Ok? == CheckErrorResponse(status, body2).Ok?
  {
  }

  /** A benign code on a failure status other than 400 is still an error. */
  lemma BenignCodeNeedsBadRequest(status: StatusCode)
    requires !IsSuccess(status) && status != BadRequest
    ensures CheckErrorResponse(status, Object(map["error" := Object(map["code" := Str(RoleAssignmentExists)])])).Err?
  {
  }

  /** A 400 whose body lacks an error code is an error. */
  lemma BadRequestWithoutCodeFails(body: Value)
    requires ErrorCode(body).None?
    ensures CheckErrorResponse(BadRequest, body).Err?
  {
  }
}

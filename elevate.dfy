/**
 * `elevate_role`: the older activation path. It looks the requested role up
 * among the eligible scope entries by exact name and scope, builds the
 * schedule request (URL, body) and classifies the answer. The user id, the
 * request id and the HTTP exchange are parameters.
 */
module Elevate {
  import opened Wrappers
  import opened Text
  import opened Json
  import Uuid
  import opened Eligible
  import opened Activate
  import RequestBackend

  /** `ElevateConfig` */
  datatype ElevateConfig = ElevateConfig(role: string, scope: string, justification: string, duration: nat)

  /** The default duration in minutes. */
  const DefaultDuration: nat := 480

  const RequestsPath := "/providers/Microsoft.Authorization/roleAssignmentScheduleRequests/"
  const ElevateApiVersion := "2020-10-01"

  /** The exact, case-sensitive match the lookup uses. */
  predicate Matches(e: ScopeEntry, cfg: ElevateConfig) {
    e.name == cfg.role && e.scope == cfg.scope
  }

  /** The first entry that matches, if any. */
  function FindEntry(roles: seq<ScopeEntry>, cfg: ElevateConfig): (r: Option<ScopeEntry>)
    ensures r.None? <==> forall e :: e in roles ==> !Matches(e, cfg)
    ensures r.Some? ==> Matches(r.value, cfg)
    ensures r.Some? ==> exists k :: 0 <= k < |roles| && roles[k] == r.value && forall j :: 0 <= j < k ==> !Matches(roles[j], cfg)
    decreases |roles|
  {
    if roles == [] then None
    else if Matches(roles[0], cfg) then Some(roles[0])
    else
      var r := FindEntry(roles[1..], cfg);
      assert forall e :: e in roles <==> e == roles[0] || e in roles[1..] by {
        assert roles == [roles[0]] + roles[1..];
      }
      assert r.Some? ==> exists k :: 0 <= k < |roles| && roles[k] == r.value && forall j :: 0 <= j < k ==> !Matches(roles[j], cfg) by {
        if r.Some? {
          var k :| 0 <= k < |roles[1..]| && roles[1..][k] == r.value && forall j :: 0 <= j < k ==> !Matches(roles[1..][j], cfg);
          assert roles[k + 1] == r.value;
          assert forall j :: 0 <= j < k + 1 ==> !Matches(roles[j], cfg) by {
            forall j | 0 <= j < k + 1
              ensures !Matches(roles[j], cfg)
            {
              if j > 0 {
                assert roles[j] == roles[1..][j - 1];
              }
            }
          }
        }
      }
      r
  }

  /** The request URL: the scope, the schedule-request collection, the request id. */
  function RequestUrl(scope: string, requestId: Uuid.Uuid): (url: string)
    ensures |url| == |RequestBackend.BaseUrl| + |scope| + |RequestsPath| + 36
    ensures StartsWith(url, RequestBackend.BaseUrl + scope + RequestsPath)
    ensures url[|url| - 36..] == Uuid.Format(requestId)
  {
    var prefix := RequestBackend.BaseUrl + scope + RequestsPath;
    var url := prefix + Uuid.Format(requestId);
    assert url[..|prefix|] == prefix;
    assert url[|prefix|..] == Uuid.Format(requestId);
    url
  }

  /** The URL names exactly one scope and one request id. */
  lemma RequestUrlInjective(s1: string, id1: Uuid.Uuid, s2: string, id2: Uuid.Uuid)
    requires RequestUrl(s1, id1) == RequestUrl(s2, id2)
    ensures s1 == s2 && id1 == id2
  {
    var u := RequestUrl(s1, id1);
    var b := |RequestBackend.BaseUrl|;
    assert |s1| == |s2|;
    assert s1 == u[b..b + |s1|];
    assert s2 == u[b..b + |s2|];
    assert Uuid.Format(id1) == u[|u| - 36..];
    assert Uuid.Format(id2) == u[|u| - 36..];
    Uuid.FormatInjective(id1, id2);
  }

  /** The ISO 8601 duration `PT{minutes}M`. */
  function DurationText(minutes: nat): string {
    "PT" + Decimal(minutes) + "M"
  }

  /** Reads a `PT{minutes}M` duration back. */
  function ParseDurationText(s: string): Option<nat> {
    if |s| >= 3 && s[..2] == "PT" && s[|s| - 1] == 'M' then ParseDecimal(s[2..|s| - 1]) else None
  }

  /** The duration text carries the minutes exactly. */
  lemma DurationTextRoundTrip(minutes: nat)
    ensures ParseDurationText(DurationText(minutes)) == Some(minutes)
  {
    var s := DurationText(minutes);
    assert s[..2] == "PT" && s[2..|s| - 1] == Decimal(minutes);
    DecimalRoundTrip(minutes);
  }

  /** The request body of a self-activation. */
  function RequestBody(principalId: string, roleDefinitionId: string, justification: string, minutes: nat): Value {
    Object(map["properties" := Object(map[
      "principalId" := Str(principalId),
      "roleDefinitionId" := Str(roleDefinitionId),
      "requestType" := Str("SelfActivate"),
      "justification" := Str(justification),
      "scheduleInfo" := Object(map["expiration" := Object(map[
        "duration" := Str(DurationText(minutes)),
        "type" := Str("AfterDuration")])])])])
  }

  /** What the service reads from the body: a self-activation for the given duration, principal and role. */
  lemma RequestBodyFields(principalId: string, roleDefinitionId: string, justification: string, minutes: nat)
    ensures var body := RequestBody(principalId, roleDefinitionId, justification, minutes);
      && At(body, ["properties", "requestType"]) == Str("SelfActivate")
      && At(body, ["properties", "principalId"]) == Str(principalId)
      && At(body, ["properties", "roleDefinitionId"]) == Str(roleDefinitionId)
      && At(body, ["properties", "justification"]) == Str(justification)
      && At(body, ["properties", "scheduleInfo", "expiration", "type"]) == Str("AfterDuration")
      && ParseDurationText(AsStr(At(body, ["properties", "scheduleInfo", "expiration", "duration"])).GetOr("")) == Some(minutes)
  {
    var body := RequestBody(principalId, roleDefinitionId, justification, minutes);
    assert At(body, ["properties", "scheduleInfo", "expiration", "duration"]) == Str(DurationText(minutes));
    DurationTextRoundTrip(minutes);
  }

  datatype ElevateError =
    | RoleNotFound
    | UserIdUnavailable(reason: string)
    | SendFailed
    | InvalidBody
    | UnableToElevate(body: Value)
    | HttpError(status: StatusCode)

  /** `error_for_status`: client and server errors. */
  predicate IsError(status: StatusCode) {
    400 <= status < 600
  }

  /** How `elevate_role` reads the answer. */
  function ClassifyResponse(status: StatusCode, body: RequestBackend.Body): (r: Result<(), ElevateError>)
    ensures status == BadRequest && body.Parsed? ==>
      (r.Ok? <==> ErrorCode(body.value) == Some(RoleAssignmentExists) || ErrorCode(body.value) == Some(RoleAssignmentRequestExists))
    ensures status == BadRequest && body.Parsed? && r.Err? ==> r.error == UnableToElevate(body.value)
    ensures !body.Parsed? && (status == BadRequest || !IsError(status)) ==> r == Err(InvalidBody)
    ensures status != BadRequest && IsError(status) ==> r == Err(HttpError(status))
    ensures status != BadRequest && !IsError(status) ==> (r.Ok? <==> body.Parsed?)
  {
    if status == BadRequest then
      match body
      case Parsed(v) =>
        if ErrorCode(v) == Some(RoleAssignmentExists) then Ok(())
        else if ErrorCode(v) == Some(RoleAssignmentRequestExists) then Ok(())
        else Err(UnableToElevate(v))
      case _ => Err(InvalidBody)
    else if IsError(status) then Err(HttpError(status))
    else if body.Parsed? then Ok(())
    else Err(InvalidBody)
  }

  /** For success statuses and 400, this path accepts exactly what the activation validator accepts. */
  lemma AgreesWithValidator(status: StatusCode, v: Value)
    requires IsSuccess(status) || status == BadRequest
    ensures ClassifyResponse(status, RequestBackend.Parsed(v)).Ok? <==> CheckErrorResponse(status, v).Ok?
  {
  }

  /**
   * A redirect status is accepted here but rejected by the activation validator.
   * The blocking HTTP client follows redirects by itself, so a 3xx status reaches
   * this classification only when it is not followed (no `Location`, or the
   * redirect limit is reached).
   */
  lemma RedirectAcceptedHereOnly(v: Value)
    ensures ClassifyResponse(302, RequestBackend.Parsed(v)).Ok? && CheckErrorResponse(302, v).Err?
  {
  }

  /** The PUT request that activates `entry` for the principal. */
  function SelfActivation(token: string, entry: ScopeEntry, principalId: string, requestId: Uuid.Uuid, cfg: ElevateConfig): RequestBackend.Request {
    RequestBackend.Request(RequestBackend.Put, RequestUrl(entry.scope, requestId), [("api-version", ElevateApiVersion)], token,
                           Some(RequestBody(principalId, entry.roleDefinitionId, cfg.justification, cfg.duration)))
  }

  /** The lookup, the user id and the request, in that order. */
  function ElevateRequest(token: string, cfg: ElevateConfig, roles: seq<ScopeEntry>, principal: Result<string, string>, requestId: Uuid.Uuid)
    : (r: Result<RequestBackend.Request, ElevateError>)
    ensures (forall e :: e in roles ==> !Matches(e, cfg)) ==> r == Err(RoleNotFound)
    ensures FindEntry(roles, cfg).Some? && principal.Err? ==> r == Err(UserIdUnavailable(principal.error))
    ensures r.Ok? ==> exists e :: e in roles && Matches(e, cfg) && r.value == SelfActivation(token, e, principal.value, requestId, cfg)
    ensures FindEntry(roles, cfg).Some? && principal.Ok? ==>
      r == Ok(SelfActivation(token, FindEntry(roles, cfg).value, principal.value, requestId, cfg))
  {
    match FindEntry(roles, cfg)
    case None => Err(RoleNotFound)
    case Some(entry) =>
      if principal.Err? then Err(UserIdUnavailable(principal.error))
      else
        Ok(SelfActivation(token, entry, principal.value, requestId, cfg))
  }

  /** What sending the request produced. */
  datatype Outcome = SendFailure | Answer(status: StatusCode, body: RequestBackend.Body)

  /** `elevate_role` */
  function ElevateRole(token: string, cfg: ElevateConfig, roles: seq<ScopeEntry>, principal: Result<string, string>,
                       requestId: Uuid.Uuid, outcome: Outcome): (r: Result<(), ElevateError>)
    ensures ElevateRequest(token, cfg, roles, principal, requestId).Err? ==> r == Err(ElevateRequest(token, cfg, roles, principal, requestId).error)
    ensures ElevateRequest(token, cfg, roles, principal, requestId).Ok? && outcome.SendFailure? ==> r == Err(SendFailed)
    ensures ElevateRequest(token, cfg, roles, principal, requestId).Ok? && outcome.Answer? ==> r == ClassifyResponse(outcome.status, outcome.body)
  {
    match ElevateRequest(token, cfg, roles, principal, requestId)
    case Err(e) => Err(e)
    case Ok(_) =>
      match outcome
      case SendFailure => Err(SendFailed)
      case Answer(status, body) => ClassifyResponse(status, body)
  }

  /** Without a matching entry the call fails with "role not found", whatever the network would say. */
  lemma RoleNotFoundWhateverTheAnswer(token: string, cfg: ElevateConfig, roles: seq<ScopeEntry>, principal: Result<string, string>,
                                      requestId: Uuid.Uuid, o1: Outcome, o2: Outcome)
    requires forall e :: e in roles ==> !Matches(e, cfg)
    ensures ElevateRole(token, cfg, roles, principal, requestId, o1) == ElevateRole(token, cfg, roles, principal, requestId, o2) == Err(RoleNotFound)
  {
  }
}

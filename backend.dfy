/**
 * The request layer: the table of control-plane operations, the bearer-token
 * memo, the retry loop and the request builder. The network and the token
 * provider are replaced by their answers: a sequence of attempt outcomes and
 * the result the provider would give when asked.
 */
module RequestBackend {
  import opened Wrappers
  import opened Text
  import opened Json
  import opened Activate
  import Scopes

  /** `RETRY_COUNT`: the backoff schedule allows this many attempts. */
  const RetryCount: nat := 10

  datatype Operation =
    | RoleAssignments
    | RoleAssignmentScheduleInstances
    | RoleDefinitions
    | RoleEligibilityScheduleInstances
    | RoleEligibilityScheduleRequests
    | RoleAssignmentScheduleRequests
    | EligibleChildResources

  /** The audience a bearer token is requested for. */
  datatype TokenScope = Management | Graph

  /** `Operation::as_str`: the path segment after `Microsoft.Authorization/`. */
  function OperationName(op: Operation): string {
    match op
    case RoleAssignments => "roleAssignments"
    case RoleAssignmentScheduleInstances => "roleAssignmentScheduleInstances"
    case RoleDefinitions => "roleDefinitions"
    case RoleEligibilityScheduleInstances => "roleEligibilityScheduleInstances"
    case RoleEligibilityScheduleRequests => "roleEligibilityScheduleRequests"
    case RoleAssignmentScheduleRequests => "roleAssignmentScheduleRequests"
    case EligibleChildResources => "eligibleChildResources"
  }

  /** `Operation::token_scope` */
  function TokenScopeOf(op: Operation): TokenScope {
    match op
    case _ => Management
  }

  /** `Operation::api_version` */
  function ApiVersion(op: Operation): string {
    match op
    case RoleAssignments | RoleDefinitions => "2022-04-01"
    case RoleAssignmentScheduleInstances | RoleEligibilityScheduleInstances
      | RoleEligibilityScheduleRequests | RoleAssignmentScheduleRequests
      | EligibleChildResources => "2020-10-01"
  }

  /** Every operation has its own path segment. */
  lemma OperationNamesDistinct(a: Operation, b: Operation)
    requires a != b
    ensures OperationName(a) != OperationName(b)
  {
  }

  /** Only role assignments and role definitions use the newer API version; every token is for management. */
  lemma OperationTables(op: Operation)
    ensures ApiVersion(op) == "2022-04-01" <==> op == RoleAssignments || op == RoleDefinitions
    ensures ApiVersion(op) != "2022-04-01" ==> ApiVersion(op) == "2020-10-01"
    ensures TokenScopeOf(op) == Management
  {
  }

  datatype RequestError =
    | TokenFailure(reason: string)
    | CloneFailure
    | RateLimited
    | BodyReadFailure
    | JsonParseFailure
    | Rejected(validation: ValidationError)
    | ExhaustedRetries

  /** `Backend`: the HTTP client and the memo of bearer tokens per token scope. */
  class Backend {
    var tokens: map<TokenScope, string>

    /** `Backend::new` */
    constructor ()
      ensures tokens == map[]
    {
      tokens := map[];
    }

    /**
     * `get_token`: a stored token is returned without asking the provider;
     * otherwise the provider's answer `fetch` is taken and, if it is a token,
     * remembered. `fetched` tells whether the provider was asked.
     */
    method GetToken(scope: TokenScope, fetch: Result<string, string>) returns (r: Result<string, RequestError>, fetched: bool)
      modifies this
      ensures scope in old(tokens) ==> !fetched && r == Ok(old(tokens)[scope]) && tokens == old(tokens)
      ensures scope !in old(tokens) && fetch.Ok? ==> fetched && r == Ok(fetch.value) && tokens == old(tokens)[scope := fetch.value]
      ensures scope !in old(tokens) && fetch.Err? ==> fetched && r == Err(TokenFailure(fetch.error)) && tokens == old(tokens)
    {
      if scope in tokens {
        return Ok(tokens[scope]), false;
      }
      fetched := true;
      match fetch
      case Err(e) =>
        r := Err(TokenFailure(e));
      case Ok(token) =>
        tokens := tokens[scope := token];
        r := Ok(token);
    }
  }

  /**
   * The provider calls made by a run of `get_token` calls for `calls`,
   * starting from the memo `tokens`; `provider(n)` is the answer to the n-th
   * call. Each entry is the token scope asked for and whether a token came back.
   */
  function FetchLog(tokens: map<TokenScope, string>, calls: seq<TokenScope>, provider: nat -> Result<string, string>, n: nat): seq<(TokenScope, bool)>
    decreases |calls|
  {
    if calls == [] then []
    else if calls[0] in tokens then FetchLog(tokens, calls[1..], provider, n)
    else
      var answer := provider(n);
      var next := if answer.Ok? then tokens[calls[0] := answer.value] else tokens;
      [(calls[0], answer.Ok?)] + FetchLog(next, calls[1..], provider, n + 1)
  }

  predicate FetchesOnlyMissing(log: seq<(TokenScope, bool)>, tokens: map<TokenScope, string>) {
    forall i :: 0 <= i < |log| ==> log[i].0 !in tokens
  }

  predicate NoRefetchAfterSuccess(log: seq<(TokenScope, bool)>) {
    forall i, j :: 0 <= i < j < |log| && log[i].1 ==> log[j].0 != log[i].0
  }

  /**
   * The memo asks the provider only for scopes it holds no token for, and once
   * a token for a scope has been obtained it never asks for that scope again.
   */
  lemma {:induction false} FetchAtMostOncePerScope(tokens: map<TokenScope, string>, calls: seq<TokenScope>, provider: nat -> Result<string, string>, n: nat)
    ensures FetchesOnlyMissing(FetchLog(tokens, calls, provider, n), tokens)
    ensures NoRefetchAfterSuccess(FetchLog(tokens, calls, provider, n))
    decreases |calls|
  {
    if calls != [] {
      var log := FetchLog(tokens, calls, provider, n);
      if calls[0] in tokens {
        FetchAtMostOncePerScope(tokens, calls[1..], provider, n);
        assert log == FetchLog(tokens, calls[1..], provider, n);
      } else {
        var answer := provider(n);
        var next := if answer.Ok? then tokens[calls[0] := answer.value] else tokens;
        FetchAtMostOncePerScope(next, calls[1..], provider, n + 1);
        var rest := FetchLog(next, calls[1..], provider, n + 1);
        assert log == [(calls[0], answer.Ok?)] + rest;
        forall i | 0 <= i < |log|
          ensures log[i].0 !in tokens
        {
          if i > 0 {
            assert log[i] == rest[i - 1];
            assert rest[i - 1].0 !in next;
          }
        }
        forall i, j | 0 <= i < j < |log| && log[i].1
          ensures log[j].0 != log[i].0
        {
          assert log[j] == rest[j - 1];
          if i > 0 {
            assert log[i] == rest[i - 1];
          } else {
            assert calls[0] in next;
          }
        }
      }
    }
  }

  /**
   * A run of `get_token` calls on one backend, for the token scopes in `calls`;
   * the n-th provider call answers `provider(n)`. The provider calls it makes are
   * those `FetchLog` describes, so they obey `FetchAtMostOncePerScope`.
   */
  method GetTokens(backend: Backend, calls: seq<TokenScope>, provider: nat -> Result<string, string>)
    returns (log: seq<(TokenScope, bool)>)
    modifies backend
    ensures log == FetchLog(old(backend.tokens), calls, provider, 0)
    ensures FetchesOnlyMissing(log, old(backend.tokens)) && NoRefetchAfterSuccess(log)
  {
    log := [];
    var i := 0;
    while i < |calls|
      invariant 0 <= i <= |calls|
      invariant log + FetchLog(backend.tokens, calls[i..], provider, |log|) == FetchLog(old(backend.tokens), calls, provider, 0)
    {
      var rest := calls[i..];
      assert rest[0] == calls[i] && rest[1..] == calls[i + 1..];
      var answer := provider(|log|);
      var r, fetched := backend.GetToken(calls[i], answer);
      if fetched {
        log := log + [(calls[i], answer.Ok?)];
      }
      i := i + 1;
    }
    FetchAtMostOncePerScope(old(backend.tokens), calls, provider, 0);
  }

  /** Whether a response body could be read and decoded as JSON. */
  datatype Body = Unreadable | Malformed | Parsed(value: Value)

  /** What one attempt to send the request produced. */
  datatype Attempt = TransportFailure | Response(status: StatusCode, body: Body)

  /** A response validator such as `check_error_response`. */
  type Validator = (StatusCode, Value) -> Result<(), ValidationError>

  /** Whether the loop goes on after an attempt, or what it returns. */
  datatype Step = Retry | Finish(result: Result<Value, RequestError>)

  /** The meaning of one attempt's outcome inside `retry_request`. */
  function Classify(a: Attempt, validate: Option<Validator>): Step {
    match a
    case TransportFailure => Retry
    case Response(status, body) =>
      if status == TooManyRequests then Finish(Err(RateLimited))
      else
        match body
        case Unreadable => Finish(Err(BodyReadFailure))
        case Malformed => Finish(Err(JsonParseFailure))
        case Parsed(v) =>
          if validate.Some? then
            match validate.value(status, v)
            case Ok(_) => Finish(Ok(v))
            case Err(e) => Finish(Err(Rejected(e)))
          else if IsSuccess(status) then Finish(Ok(v))
          else Retry
  }

  /** The answer of `retry_request` when attempts `i` onwards remain. */
  function RetryFrom(attempts: seq<Attempt>, validate: Option<Validator>, i: nat): Result<Value, RequestError>
    decreases |attempts| - i
  {
    if i >= |attempts| then Err(ExhaustedRetries)
    else
      match Classify(attempts[i], validate)
      case Finish(r) => r
      case Retry => RetryFrom(attempts, validate, i + 1)
  }

  /** The first attempt that does not call for a retry decides the answer. */
  lemma {:induction false} FirstFinishDecides(attempts: seq<Attempt>, validate: Option<Validator>, i: nat, k: nat)
    requires i <= k < |attempts|
    requires forall j :: i <= j < k ==> Classify(attempts[j], validate).Retry?
    requires Classify(attempts[k], validate).Finish?
    ensures RetryFrom(attempts, validate, i) == Classify(attempts[k], validate).result
    decreases k - i
  {
    if i < k {
      FirstFinishDecides(attempts, validate, i + 1, k);
    }
  }

  /** When every attempt calls for a retry, the loop ends with "exhausted retries". */
  lemma {:induction false} AllRetriesExhaust(attempts: seq<Attempt>, validate: Option<Validator>, i: nat)
    requires forall j :: i <= j < |attempts| ==> Classify(attempts[j], validate).Retry?
    ensures RetryFrom(attempts, validate, i) == Err(ExhaustedRetries)
    decreases |attempts| - i
  {
    if i < |attempts| {
      AllRetriesExhaust(attempts, validate, i + 1);
    }
  }

  /** A 429 after nothing but transport failures ends the loop with "rate limited". */
  lemma RateLimitIsFinal(attempts: seq<Attempt>, validate: Option<Validator>, k: nat, body: Body)
    requires k < |attempts| && attempts[k] == Response(TooManyRequests, body)
    requires forall j :: 0 <= j < k ==> attempts[j] == TransportFailure
    ensures RetryFrom(attempts, validate, 0) == Err(RateLimited)
  {
    FirstFinishDecides(attempts, validate, 0, k);
  }

  /** With a validator, any decodable non-429 response is final: its verdict is the answer. */
  lemma ValidatorDecidesFirstResponse(status: StatusCode, v: Value, validate: Validator)
    requires status != TooManyRequests
    ensures Classify(Response(status, Parsed(v)), Some(validate)) ==
      Finish(if validate(status, v).Ok? then Ok(v) else Err(Rejected(validate(status, v).error)))
  {
  }

  /** Without a validator, a decodable failure status is retried. */
  lemma FailureStatusRetriedWithoutValidator(status: StatusCode, v: Value)
    requires status != TooManyRequests && !IsSuccess(status)
    ensures Classify(Response(status, Parsed(v)), None) == Retry
  {
  }

  /**
   * `retry_request`: one attempt per element of `attempts` until one is final.
   * `used` is the number of requests sent; a request that cannot be cloned is
   * never sent.
   */
  method RetryRequest(cloneable: bool, attempts: seq<Attempt>, validate: Option<Validator>) returns (r: Result<Value, RequestError>, used: nat)
    requires |attempts| == RetryCount
    ensures !cloneable ==> r == Err(CloneFailure) && used == 0
    ensures cloneable ==> r == RetryFrom(attempts, validate, 0)
    ensures cloneable ==> 1 <= used <= RetryCount
    ensures cloneable ==> forall j :: 0 <= j < used - 1 ==> Classify(attempts[j], validate).Retry?
    ensures cloneable && used < RetryCount ==> Classify(attempts[used - 1], validate).Finish?
  {
    // Cloning is attempted at the top of every iteration; whether it succeeds
    // depends only on the request, so only the first iteration can fail it.
    if !cloneable {
      return Err(CloneFailure), 0;
    }
    var i := 0;
    while i < RetryCount
      invariant 0 <= i <= RetryCount
      invariant forall j :: 0 <= j < i ==> Classify(attempts[j], validate).Retry?
      invariant RetryFrom(attempts, validate, 0) == RetryFrom(attempts, validate, i)
      decreases RetryCount - i
    {
      match attempts[i] {
        case TransportFailure =>
        case Response(status, body) =>
          if status == TooManyRequests {
            return Err(RateLimited), i + 1;
          }
          match body {
            case Unreadable =>
              return Err(BodyReadFailure), i + 1;
            case Malformed =>
              return Err(JsonParseFailure), i + 1;
            case Parsed(v) =>
              if validate.Some? {
                var verdict := validate.value(status, v);
                if verdict.Err? {
                  return Err(Rejected(verdict.error)), i + 1;
                }
                return Ok(v), i + 1;
              }
              if IsSuccess(status) {
                return Ok(v), i + 1;
              }
          }
      }
      i := i + 1;
    }
    r, used := Err(ExhaustedRetries), RetryCount;
  }

  datatype HttpMethod = Get | Put | Post | Delete

  /** A request as built by `send`: method, URL, query pairs, bearer token and JSON body. */
  datatype Request = Request(verb: HttpMethod, url: string, query: seq<(string, string)>, bearer: string, json: Option<Value>)

  const BaseUrl := "https://management.azure.com"
  const ProvidersPath := "/providers/Microsoft.Authorization/"

  /** The URL `send` targets: base, scope path, provider path, operation name, extra suffix. */
  function Url(operation: Operation, scope: Option<Scopes.Scope>, extra: Option<string>): (url: string)
    ensures StartsWith(url, BaseUrl + (if scope.Some? then scope.value.path else "") + ProvidersPath + OperationName(operation))
    ensures |url| == |BaseUrl| + (if scope.Some? then |scope.value.path| else 0) + |ProvidersPath| + |OperationName(operation)| + |extra.GetOr("")|
    ensures url[|url| - |extra.GetOr("")|..] == extra.GetOr("")
  {
    var prefix := BaseUrl + (if scope.Some? then scope.value.path else "") + ProvidersPath + OperationName(operation);
    var url := prefix + extra.GetOr("");
    assert url[..|prefix|] == prefix;
    assert url[|prefix|..] == extra.GetOr("");
    url
  }

  /** For a fixed operation and suffix, the URL determines the scope path. */
  lemma UrlDeterminesScope(operation: Operation, s1: Scopes.Scope, s2: Scopes.Scope, extra: Option<string>)
    requires Url(operation, Some(s1), extra) == Url(operation, Some(s2), extra)
    ensures s1 == s2
  {
    var u := Url(operation, Some(s1), extra);
    assert |s1.path| == |s2.path|;
    assert s1.path == u[|BaseUrl|..|BaseUrl| + |s1.path|];
    assert s2.path == u[|BaseUrl|..|BaseUrl| + |s2.path|];
  }

  /** `RequestBuilder`: the parts of a request gathered before `send`. */
  class RequestBuilder {
    const verb: HttpMethod
    const operation: Operation
    var extra: Option<string>
    var scope: Option<Scopes.Scope>
    var query: Option<seq<(string, string)>>
    var json: Option<Value>
    var validate: Option<Validator>

    /** `RequestBuilder::new` */
    constructor (verb: HttpMethod, operation: Operation)
      ensures this.verb == verb && this.operation == operation
      ensures extra.None? && scope.None? && query.None? && json.None? && validate.None?
    {
      this.verb := verb;
      this.operation := operation;
      extra, scope, query, json, validate := None, None, None, None, None;
    }

    /** `query`: appends one pair after those already given. */
    method Query(key: string, value: string)
      modifies this
      ensures query == Some(old(query).GetOr([]) + [(key, value)])
      ensures extra == old(extra) && scope == old(scope) && json == old(json) && validate == old(validate)
    {
      query := Some(query.GetOr([]) + [(key, value)]);
    }

    /** The `scope` setter. */
    method SetScope(s: Scopes.Scope)
      modifies this`scope
      ensures scope == Some(s)
    {
      scope := Some(s);
    }

    /** The `extra` setter. */
    method SetExtra(e: string)
      modifies this`extra
      ensures extra == Some(e)
    {
      extra := Some(e);
    }

    /** The `json` setter. */
    method SetJson(body: Value)
      modifies this`json
      ensures json == Some(body)
    {
      json := Some(body);
    }

    /** The `validate` setter. */
    method SetValidate(v: Validator)
      modifies this`validate
      ensures validate == Some(v)
    {
      validate := Some(v);
    }

    /**
     * `send`: obtains the token for the operation's token scope, builds the
     * request (verb, URL, the API version first, then the caller's query pairs in order)
     * and runs it through the retry loop.
     */
    method Send(backend: Backend, fetch: Result<string, string>, cloneable: bool, attempts: seq<Attempt>)
      returns (r: Result<Value, RequestError>, sent: Option<Request>)
      requires |attempts| == RetryCount
      modifies backend
      ensures sent.Some? <==> TokenScopeOf(operation) in old(backend.tokens) || fetch.Ok?
      ensures sent.None? ==> r.Err? && r.error.TokenFailure?
      ensures backend.tokens == if TokenScopeOf(operation) !in old(backend.tokens) && fetch.Ok?
                                then old(backend.tokens)[TokenScopeOf(operation) := fetch.value] else old(backend.tokens)
      ensures sent.Some? ==> TokenScopeOf(operation) in backend.tokens
      ensures sent.Some? ==> sent.value == Request(verb, Url(operation, scope, extra),
                                                   [("api-version", ApiVersion(operation))] + query.GetOr([]),
                                                   backend.tokens[TokenScopeOf(operation)], json)
      ensures sent.Some? && cloneable ==> r == RetryFrom(attempts, validate, 0)
      ensures sent.Some? && !cloneable ==> r == Err(CloneFailure)
    {
      var url := Url(operation, scope, extra);
      var token, _ := backend.GetToken(TokenScopeOf(operation), fetch);
      if token.Err? {
        return Err(token.error), None;
      }
      var request := Request(verb, url, [("api-version", ApiVersion(operation))] + query.GetOr([]), token.value, json);
      sent := Some(request);
      var used;
      r, used := RetryRequest(cloneable, attempts, validate);
    }
  }
}

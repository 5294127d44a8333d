/**
 * The request-level decisions of storage/app.py: the admin gate every request
 * passes through, the rule of the submission response model that an id and an
 * error exclude each other, and the shape of what the submit endpoint returns.
 */
module AccessGate {
  import opened Wrappers
  import opened Auth

  const BEARER_PREFIX := "Bearer "
  const REQUIRED_ROLE := "Admin"

  const HEADER_MISSING := "Authorization header missing."
  const HEADER_MALFORMED := "Invalid Authorization header value. The header value must have the format Bearer <token>."
  const TOKEN_REFUSED := "Invalid or expired token."
  const MUTUALLY_EXCLUSIVE := "The submission_id and error field are mutually exclusive."

  /** A plain-text response. */
  datatype Response = Response(status: int, body: string)

  /** What the gate does with a request: answer it itself, or pass it on to the endpoint. */
  datatype Decision = Respond(response: Response) | Forward

  /** What the token parser does: return the claims or raise. */
  datatype ParseOutcome = Parsed(claims: Claims) | ParseFailed

  /** The token parser (auth.parse_token), given the token and the refetch flag. */
  type TokenParser = (string, bool) -> ParseOutcome

  /** The arguments the gate consulted the parser with. */
  datatype ParseCall = ParseCall(token: string, refetch: bool)

  /** The gate's decision and the parser call it made, if any. */
  datatype GateRun = GateRun(decision: Decision, parseCall: Option<ParseCall>)

  /** payload.get("roles", []): the roles claim, or no roles when it is absent. */
  function Roles(claims: Claims): seq<string>
  {
    match claims.roles
    case Some(roles) => roles
    case None => []
  }

  /**
   * enforce_admin_user, given the Authorization header (None when absent) and
   * the token parser: the checks run in order and the first that fails answers.
   */
  function EnforceAdminUser(header: Option<string>, parse: TokenParser): (run: GateRun)
    ensures run.parseCall.Some? <==> header.Some? && BEARER_PREFIX <= header.value
    ensures run.parseCall.Some? ==>
      BEARER_PREFIX + run.parseCall.value.token == header.value && run.parseCall.value.refetch
  {
    match header
    case None => GateRun(Respond(Response(401, HEADER_MISSING)), None)
    case Some(value) =>
      if !(BEARER_PREFIX <= value) then GateRun(Respond(Response(401, HEADER_MALFORMED)), None)
      else
        var token := value[|BEARER_PREFIX|..];
        assert value == BEARER_PREFIX + token;
        var call := Some(ParseCall(token, true));
        match parse(token, true)
        case ParseFailed => GateRun(Respond(Response(401, TOKEN_REFUSED)), call)
        case Parsed(claims) =>
          if REQUIRED_ROLE !in Roles(claims) then GateRun(Respond(Response(403, "")), call)
          else GateRun(Forward, call)
  }

  // ---------------------------------------------------------------------------
  // The decision table as an ordered list of checks

  /** The gate's checks, in the order it makes them. */
  datatype Check = HeaderPresent | BearerScheme | TokenParses | AdminRole

  const CHECKS: seq<Check> := [HeaderPresent, BearerScheme, TokenParses, AdminRole]

  /** Whether a request passes one check, judged on its own. */
  predicate Passes(check: Check, header: Option<string>, parse: TokenParser)
  {
    match check
    case HeaderPresent => header.Some?
    case BearerScheme => header.Some? && |header.value| >= 7 && header.value[..7] == "Bearer "
    case TokenParses => header.Some? && |header.value| >= 7 && parse(header.value[7..], true).Parsed?
    case AdminRole =>
      header.Some? && |header.value| >= 7 &&
      match parse(header.value[7..], true)
      case Parsed(claims) => "Admin" in Roles(claims)
      case ParseFailed => false
  }

  /** The first check in the list that the request fails. */
  function FirstFailing(checks: seq<Check>, header: Option<string>, parse: TokenParser): Option<Check>
  {
    if checks == [] then None
    else if !Passes(checks[0], header, parse) then Some(checks[0])
    else FirstFailing(checks[1..], header, parse)
  }

  /** The answer to a request that fails a check. */
  function Refusal(check: Check): Response
  {
    match check
    case HeaderPresent => Response(401, HEADER_MISSING)
    case BearerScheme => Response(401, HEADER_MALFORMED)
    case TokenParses => Response(401, TOKEN_REFUSED)
    case AdminRole => Response(403, "")
  }

  /**
   * The gate forwards exactly the requests that pass all four checks, and
   * otherwise answers as the first failing check in source order prescribes.
   */
  lemma {:induction false} DecisionIsFirstFailingCheck(header: Option<string>, parse: TokenParser)
    ensures EnforceAdminUser(header, parse).decision
         == match FirstFailing(CHECKS, header, parse)
            case None => Forward
            case Some(check) => Respond(Refusal(check))
  {
    var rest1, rest2, rest3 := CHECKS[1..], CHECKS[2..], CHECKS[3..];
    assert rest1 == [BearerScheme, TokenParses, AdminRole] && rest1[1..] == rest2;
    assert rest2 == [TokenParses, AdminRole] && rest2[1..] == rest3;
    assert rest3 == [AdminRole] && rest3[1..] == [];
    match header
    case None =>
      assert FirstFailing(CHECKS, header, parse) == Some(HeaderPresent);
    case Some(value) =>
      if !(BEARER_PREFIX <= value) {
        assert !Passes(BearerScheme, header, parse);
        assert FirstFailing(CHECKS, header, parse) == FirstFailing(rest1, header, parse) == Some(BearerScheme);
      } else {
        assert |value| >= 7 && value[..7] == "Bearer ";
        assert FirstFailing(CHECKS, header, parse) == FirstFailing(rest2, header, parse);
        var token := value[7..];
        assert value[|BEARER_PREFIX|..] == token;
        match parse(token, true)
        case ParseFailed =>
          assert FirstFailing(rest2, header, parse) == Some(TokenParses);
        case Parsed(claims) =>
          if REQUIRED_ROLE in Roles(claims) {
            assert FirstFailing(rest2, header, parse) == FirstFailing(rest3, header, parse) == FirstFailing([], header, parse);
          } else {
            assert FirstFailing(rest2, header, parse) == FirstFailing(rest3, header, parse) == Some(AdminRole);
          }
      }
  }

  /** The request is forwarded if and only if every check passes. */
  lemma ForwardOnlyIfAllPass(header: Option<string>, parse: TokenParser)
    ensures EnforceAdminUser(header, parse).decision == Forward
        <==> forall i :: 0 <= i < |CHECKS| ==> Passes(CHECKS[i], header, parse)
  {
    DecisionIsFirstFailingCheck(header, parse);
    NoneFailingIffAllPass(CHECKS, header, parse);
  }

  lemma {:induction false} NoneFailingIffAllPass(checks: seq<Check>, header: Option<string>, parse: TokenParser)
    ensures FirstFailing(checks, header, parse).None? <==> forall i :: 0 <= i < |checks| ==> Passes(checks[i], header, parse)
    decreases |checks|
  {
    if checks != [] {
      NoneFailingIffAllPass(checks[1..], header, parse);
      assert forall i :: 1 <= i < |checks| ==> checks[i] == checks[1..][i - 1];
    }
  }

  // ---------------------------------------------------------------------------
  // One lemma per outcome of the gate (the scenarios of tests/test_auth.py, and the roles the tests leave out)

  /** No Authorization header: 401, and the parser is not consulted. */
  lemma MissingHeaderIs401(parse: TokenParser)
    ensures EnforceAdminUser(None, parse) == GateRun(Respond(Response(401, HEADER_MISSING)), None)
  {
  }

  /** A header without the exact "Bearer " prefix: 401 without consulting the parser, even for a token that parses with the Admin role. */
  lemma NonBearerHeaderIs401(value: string, parse: TokenParser)
    requires !(BEARER_PREFIX <= value)
    ensures EnforceAdminUser(Some(value), parse) == GateRun(Respond(Response(401, HEADER_MALFORMED)), None)
  {
  }

  /** Any parser failure: 401. */
  lemma ParseFailureIs401(token: string, parse: TokenParser)
    requires parse(token, true) == ParseFailed
    ensures EnforceAdminUser(Some(BEARER_PREFIX + token), parse).decision == Respond(Response(401, TOKEN_REFUSED))
  {
  }

  /** Claims whose roles lack "Admin", including empty or absent roles: 403 with an empty body. */
  lemma MissingAdminRoleIs403(token: string, parse: TokenParser, claims: Claims)
    requires parse(token, true) == Parsed(claims)
    requires claims.roles.Some? ==> REQUIRED_ROLE !in claims.roles.value
    ensures EnforceAdminUser(Some(BEARER_PREFIX + token), parse).decision == Respond(Response(403, ""))
  {
  }

  /** A token that parses with the Admin role is forwarded. */
  lemma AdminIsForwarded(token: string, parse: TokenParser, claims: Claims)
    requires parse(token, true) == Parsed(claims)
    requires claims.roles.Some? && REQUIRED_ROLE in claims.roles.value
    ensures EnforceAdminUser(Some(BEARER_PREFIX + token), parse) == GateRun(Forward, Some(ParseCall(token, true)))
  {
  }

  // ---------------------------------------------------------------------------
  // The gate over the modelled parse_token

  /** The gate's parser: parse_token run from a given key state, with any raised error read as a failure. */
  function ParserAt(authority: Authority, decoder: Decoder, s: KeyState): TokenParser
  {
    (token: string, refetch: bool) =>
      match ParseToken(token, refetch, authority, decoder, s).result
      case Success(claims) => Parsed(claims)
      case Failure(_) => ParseFailed
  }

  /** An expired token is refused with 401, and the key is not refreshed on its account. */
  lemma ExpiredTokenIs401WithoutRefresh(token: string, authority: Authority, decoder: Decoder, s: KeyState)
    requires TryDecode(token, GetPublicKey(authority, s).key, decoder) == Expired
    ensures EnforceAdminUser(Some(BEARER_PREFIX + token), ParserAt(authority, decoder, s)).decision
         == Respond(Response(401, TOKEN_REFUSED))
    ensures ParseToken(token, true, authority, decoder, s).refreshes == 0
  {
    ExpiryNeverRefreshes(token, true, authority, decoder, s);
    ParseFailureIs401(token, ParserAt(authority, decoder, s));
  }

  // ---------------------------------------------------------------------------
  // The response model and the submit endpoint

  /** A validated SubmissionResponseModel. */
  datatype SubmissionResponse = SubmissionResponse(submissionId: Option<string>, error: Option<string>)

  /**
   * either_submission_id_or_error: the validator of the error field, given the
   * value and the already validated submission_id; a submission_id that is not
   * None makes it raise.
   */
  function EitherSubmissionIdOrError(error: Option<string>, submissionId: Option<string>): Result<Option<string>, string>
  {
    if submissionId.Some? then Failure(MUTUALLY_EXCLUSIVE) else Success(error)
  }

  /**
   * Validating a returned dict against the response model: a field left out
   * takes its default None, and the error validator runs only when the error
   * field is given.
   */
  function ValidateResponse(fields: map<string, string>): Result<SubmissionResponse, string>
  {
    var submissionId := if "submission_id" in fields then Some(fields["submission_id"]) else None;
    if "error" !in fields then Success(SubmissionResponse(submissionId, None))
    else
      match EitherSubmissionIdOrError(Some(fields["error"]), submissionId)
      case Failure(e) => Failure(e)
      case Success(error) => Success(SubmissionResponse(submissionId, error))
  }

  /** The keys of the response body, with None fields excluded. */
  function ResponseKeys(response: SubmissionResponse): set<string>
  {
    (if response.submissionId.Some? then {"submission_id"} else {}) + (if response.error.Some? then {"error"} else {})
  }

  /**
   * submit_proposal, given what the call to submission.submit did: the id it
   * returned, or the message of what it raised.
   */
  function SubmitProposal(submitted: Result<string, string>): map<string, string>
  {
    match submitted
    case Success(id) => map["submission_id" := id]
    case Failure(message) => map["error" := message]
  }

  /** A response carrying both a submission_id and an error is rejected, and an accepted one never carries both. */
  lemma BothFieldsRejected(fields: map<string, string>)
    ensures "submission_id" in fields && "error" in fields ==> ValidateResponse(fields) == Failure(MUTUALLY_EXCLUSIVE)
    ensures ValidateResponse(fields).Success? ==>
      !(ValidateResponse(fields).value.submissionId.Some? && ValidateResponse(fields).value.error.Some?)
  {
  }

  /**
   * submit_proposal returns a dict with exactly one key, submission_id on
   * success and error otherwise; the response model accepts it, and the body
   * sent has that one key with that value.
   */
  lemma SubmitProposalHasOneKey(submitted: Result<string, string>)
    ensures |SubmitProposal(submitted).Keys| == 1
    ensures submitted.Success? ==> SubmitProposal(submitted) == map["submission_id" := submitted.value]
    ensures submitted.Failure? ==> SubmitProposal(submitted) == map["error" := submitted.error]
    ensures ValidateResponse(SubmitProposal(submitted)).Success?
    ensures ResponseKeys(ValidateResponse(SubmitProposal(submitted)).value) == SubmitProposal(submitted).Keys
  {
  }
}

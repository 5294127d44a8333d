/**
 * Token parsing with a one-shot refresh of the public key (storage/auth.py),
 * as pure functions over the state of the key file and of the key authority.
 *
 * The JWT decoder and the key authority are oracles: the decoder is a function
 * from (token, key, algorithms) to its verdict, and the authority is a function
 * from the number of calls of request_public_key so far to the HTTP response it gives or
 * the exception it raises. Reading the key file translates line endings. The
 * class in key_cache.dfy runs the same steps by updating fields, and is proved
 * to agree with these functions.
 */
module Auth {
  import opened Wrappers

  /** The algorithm list every decode uses. */
  const ALGORITHMS: seq<string> := ["RS256"]

  const HTTP_OK := 200

  const TOKEN_EXPIRED := "The token has expired."
  const TOKEN_INVALID := "Invalid token."
  const KEY_REQUEST_FAILED := "The public key could not be requested from the SALT API server."

  /** The decoded token payload; `roles` is None when the claim is absent. */
  datatype Claims = Claims(roles: Option<seq<string>>)

  /**
   * What decoding a token does: return its claims, raise ExpiredSignatureError,
   * or raise any other exception (bad signature, malformed token, wrong key).
   */
  datatype Decoded = Verified(claims: Claims) | Expired | Rejected

  /** The JWT decoder, given the token, the public key and the algorithm list. */
  type Decoder = (string, string, seq<string>) -> Decoded

  datatype HttpResponse = HttpResponse(status: int, text: string)

  /**
   * The key authority: the outcome of the n-th call of request_public_key,
   * either the HTTP response or the message of the exception the request
   * raises (a transport error, or SALT_API_URL not being set).
   */
  type Authority = nat -> Result<HttpResponse, string>

  /**
   * The persisted key file as written (None when opening or reading it
   * raises) and the number of calls of request_public_key so far.
   */
  datatype KeyState = KeyState(file: Option<string>, requests: nat)

  /** The key a step returns or the error it raises, and the state after it. */
  datatype KeyStep = KeyStep(key: Result<string, string>, state: KeyState)

  /** The outcome of parse_token, with how many attempts it made and how many key refreshes its failure handler did. */
  datatype ParseRun = ParseRun(result: Result<Claims, string>, state: KeyState, attempts: nat, refreshes: nat)

  /**
   * What a text-mode read with universal newlines makes of the file content:
   * every "\r\n" and every lone '\r' becomes '\n'.
   */
  function UniversalNewlines(s: string): string
  {
    if s == [] then []
    else if s[0] == '\r' then
      if |s| >= 2 && s[1] == '\n' then ['\n'] + UniversalNewlines(s[2..])
      else ['\n'] + UniversalNewlines(s[1..])
    else [s[0]] + UniversalNewlines(s[1..])
  }

  /** read_public_key: the file content as a text-mode read returns it, or None when reading raises. */
  function ReadPublicKey(s: KeyState): Option<string>
  {
    match s.file
    case None => None
    case Some(content) => Some(UniversalNewlines(content))
  }

  /** store_public_key: overwrite the file with the key. */
  function StorePublicKey(key: string, s: KeyState): KeyState
  {
    s.(file := Some(key))
  }

  /** request_public_key: one request to the authority; an exception escapes, and any status but 200 raises. */
  function RequestPublicKey(authority: Authority, s: KeyState): KeyStep
  {
    var after := s.(requests := s.requests + 1);
    match authority(s.requests)
    case Failure(e) => KeyStep(Failure(e), after)
    case Success(response) =>
      if response.status != HTTP_OK then KeyStep(Failure(KEY_REQUEST_FAILED), after)
      else KeyStep(Success(response.text), after)
  }

  /** update_public_key: request the key, store it and return it. */
  function UpdatePublicKey(authority: Authority, s: KeyState): KeyStep
  {
    var requested := RequestPublicKey(authority, s);
    match requested.key
    case Failure(_) => requested
    case Success(key) => KeyStep(Success(key), StorePublicKey(key, requested.state))
  }

  /** get_public_key: the stored key when the file yields a non-empty string, else a fresh one. */
  function GetPublicKey(authority: Authority, s: KeyState): KeyStep
  {
    var stored := ReadPublicKey(s);
    if stored.Some? && stored.value != "" then KeyStep(Success(stored.value), s)
    else UpdatePublicKey(authority, s)
  }

  /**
   * The decode in parse_token's try block, given what get_public_key gave. A
   * failure to obtain the key is caught by the same generic handler as a
   * rejected token.
   */
  function TryDecode(token: string, key: Result<string, string>, decoder: Decoder): Decoded
  {
    match key
    case Success(k) => decoder(token, k, ALGORITHMS)
    case Failure(_) => Rejected
  }

  /**
   * parse_token: expiry fails at once; any other failure refreshes the key and
   * retries with the flag cleared when the flag is set, and fails otherwise.
   */
  function ParseToken(token: string, refetch: bool, authority: Authority, decoder: Decoder, s: KeyState): ParseRun
    decreases refetch
  {
    var got := GetPublicKey(authority, s);
    match TryDecode(token, got.key, decoder)
    case Verified(claims) => ParseRun(Success(claims), got.state, 1, 0)
    case Expired => ParseRun(Failure(TOKEN_EXPIRED), got.state, 1, 0)
    case Rejected =>
      if !refetch then ParseRun(Failure(TOKEN_INVALID), got.state, 1, 0)
      else
        var refreshed := UpdatePublicKey(authority, got.state);
        match refreshed.key
        case Failure(e) => ParseRun(Failure(e), refreshed.state, 1, 1)
        case Success(_) =>
          var retry := ParseToken(token, false, authority, decoder, refreshed.state);
          ParseRun(retry.result, retry.state, retry.attempts + 1, retry.refreshes + 1)
  }

  // ---------------------------------------------------------------------------
  // Newline translation

  /**
   * The translation leaves no '\r', leaves '\r'-free text alone (so it is
   * idempotent), never lengthens the text, and empties only the empty text.
   */
  lemma {:induction false} NewlinesTranslated(s: string)
    ensures '\r' !in UniversalNewlines(s)
    ensures '\r' !in s ==> UniversalNewlines(s) == s
    ensures UniversalNewlines(UniversalNewlines(s)) == UniversalNewlines(s)
    ensures |UniversalNewlines(s)| <= |s|
    ensures UniversalNewlines(s) == [] <==> s == []
    decreases |s|
  {
    if s == [] {
    } else if s[0] == '\r' && |s| >= 2 && s[1] == '\n' {
      NewlinesTranslated(s[2..]);
      assert UniversalNewlines(UniversalNewlines(s)) == ['\n'] + UniversalNewlines(UniversalNewlines(s[2..]));
    } else if s[0] == '\r' {
      NewlinesTranslated(s[1..]);
      assert UniversalNewlines(UniversalNewlines(s)) == ['\n'] + UniversalNewlines(UniversalNewlines(s[1..]));
    } else {
      NewlinesTranslated(s[1..]);
      assert s == [s[0]] + s[1..];
      assert UniversalNewlines(UniversalNewlines(s)) == [s[0]] + UniversalNewlines(UniversalNewlines(s[1..]));
    }
  }

  // ---------------------------------------------------------------------------
  // The key slot

  /**
   * request_public_key raises exactly when the request itself raises (with
   * that exception's message) or the status is not 200, returns the response
   * text otherwise, and does not touch the key file.
   */
  lemma RequestFailsUnlessOk(authority: Authority, s: KeyState)
    ensures RequestPublicKey(authority, s).key.Success?
        <==> authority(s.requests).Success? && authority(s.requests).value.status == HTTP_OK
    ensures RequestPublicKey(authority, s).key.Success? ==>
      RequestPublicKey(authority, s).key.value == authority(s.requests).value.text
    ensures RequestPublicKey(authority, s).key.Failure? ==>
      RequestPublicKey(authority, s).key.error
        == if authority(s.requests).Failure? then authority(s.requests).error else KEY_REQUEST_FAILED
    ensures RequestPublicKey(authority, s).state == s.(requests := s.requests + 1)
  {
  }

  /**
   * A stored key is read back with its line endings translated, so a key
   * without '\r' is read back exactly; storing makes no request.
   */
  lemma StoreThenRead(key: string, s: KeyState)
    ensures ReadPublicKey(StorePublicKey(key, s)) == Some(UniversalNewlines(key))
    ensures '\r' !in key ==> ReadPublicKey(StorePublicKey(key, s)) == Some(key)
    ensures StorePublicKey(key, s).requests == s.requests
  {
    NewlinesTranslated(key);
  }

  /**
   * update_public_key makes exactly one request, stores exactly the key it
   * returns (a later read yields it with line endings translated), and on
   * failure raises the request's error and leaves the file alone.
   */
  lemma UpdateStoresReturnedKey(authority: Authority, s: KeyState)
    ensures
      var u := UpdatePublicKey(authority, s);
      && u.state.requests == s.requests + 1
      && (u.key.Success? <==> authority(s.requests).Success? && authority(s.requests).value.status == HTTP_OK)
      && (u.key.Success? ==>
            && u.key.value == authority(s.requests).value.text
            && u.state.file == Some(u.key.value)
            && ReadPublicKey(u.state) == Some(UniversalNewlines(u.key.value)))
      && (u.key.Failure? ==>
            && u.key.error == RequestPublicKey(authority, s).key.error
            && u.state.file == s.file)
  {
    RequestFailsUnlessOk(authority, s);
  }

  /** A non-empty stored key is returned without contacting the authority. */
  lemma StoredKeyNeedsNoRequest(authority: Authority, s: KeyState, key: string)
    requires ReadPublicKey(s) == Some(key) && key != ""
    ensures GetPublicKey(authority, s) == KeyStep(Success(key), s)
  {
  }

  /** A missing, unreadable or empty key file makes get_public_key fetch, store and return a key. */
  lemma MissingKeyIsFetched(authority: Authority, s: KeyState)
    requires ReadPublicKey(s).None? || ReadPublicKey(s) == Some("")
    ensures GetPublicKey(authority, s) == UpdatePublicKey(authority, s)
    ensures GetPublicKey(authority, s).key.Success? ==>
      GetPublicKey(authority, s).state.file == Some(GetPublicKey(authority, s).key.value)
  {
    UpdateStoresReturnedKey(authority, s);
  }

  /**
   * get_public_key makes at most one request, and a later read of the file
   * yields the key it returned, up to line-ending translation (exactly, when
   * that key has no '\r', which a key read from the file never has).
   */
  lemma GetPublicKeyAgreesWithFile(authority: Authority, s: KeyState)
    ensures GetPublicKey(authority, s).state.requests <= s.requests + 1
    ensures GetPublicKey(authority, s).key.Success? ==>
      ReadPublicKey(GetPublicKey(authority, s).state) == Some(UniversalNewlines(GetPublicKey(authority, s).key.value))
  {
    match s.file
    case Some(content) =>
      if UniversalNewlines(content) == "" {
        MissingKeyIsFetched(authority, s);
        UpdateStoresReturnedKey(authority, s);
      } else {
        NewlinesTranslated(content);
      }
    case None =>
      MissingKeyIsFetched(authority, s);
      UpdateStoresReturnedKey(authority, s);
  }

  // ---------------------------------------------------------------------------
  // parse_token

  /** On a successful decode with the key from get_public_key, the decoder's claims are returned and nothing is refreshed. */
  lemma DecodedClaimsReturned(token: string, refetch: bool, authority: Authority, decoder: Decoder, s: KeyState, key: string, claims: Claims)
    requires GetPublicKey(authority, s).key == Success(key)
    requires decoder(token, key, ALGORITHMS) == Verified(claims)
    ensures ParseToken(token, refetch, authority, decoder, s)
         == ParseRun(Success(claims), GetPublicKey(authority, s).state, 1, 0)
  {
  }

  /** An expired signature fails with the expiry message and never refreshes the key, whatever the flag. */
  lemma ExpiryNeverRefreshes(token: string, refetch: bool, authority: Authority, decoder: Decoder, s: KeyState)
    requires TryDecode(token, GetPublicKey(authority, s).key, decoder) == Expired
    ensures ParseToken(token, refetch, authority, decoder, s)
         == ParseRun(Failure(TOKEN_EXPIRED), GetPublicKey(authority, s).state, 1, 0)
  {
  }

  /** Without the flag, any other failure is "Invalid token." and nothing is refreshed. */
  lemma RejectionWithoutFlag(token: string, authority: Authority, decoder: Decoder, s: KeyState)
    requires TryDecode(token, GetPublicKey(authority, s).key, decoder) == Rejected
    ensures ParseToken(token, false, authority, decoder, s)
         == ParseRun(Failure(TOKEN_INVALID), GetPublicKey(authority, s).state, 1, 0)
  {
  }

  /**
   * With the flag, any other failure (a rejected token, or a key that could not
   * be obtained) refreshes the key exactly once; the stored key is then the
   * fresh one and the token is parsed once more with the flag cleared. If the
   * refresh itself raises, that error escapes.
   */
  lemma RejectionRefreshesOnce(token: string, authority: Authority, decoder: Decoder, s: KeyState)
    requires TryDecode(token, GetPublicKey(authority, s).key, decoder) == Rejected
    ensures ParseToken(token, true, authority, decoder, s).refreshes == 1
    ensures
      var refreshed := UpdatePublicKey(authority, GetPublicKey(authority, s).state);
      && (refreshed.key.Failure? ==>
            ParseToken(token, true, authority, decoder, s) == ParseRun(Failure(refreshed.key.error), refreshed.state, 1, 1))
      && (refreshed.key.Success? ==>
            && refreshed.state.file == Some(refreshed.key.value)
            && ParseToken(token, true, authority, decoder, s).attempts == 2
            && ParseToken(token, true, authority, decoder, s).result
               == ParseToken(token, false, authority, decoder, refreshed.state).result)
  {
    var refreshed := UpdatePublicKey(authority, GetPublicKey(authority, s).state);
    UpdateStoresReturnedKey(authority, GetPublicKey(authority, s).state);
    if refreshed.key.Success? {
      NoRefreshWithoutFlag(token, authority, decoder, refreshed.state);
    }
  }

  /** A failure to obtain the key in the first attempt takes the same path as a rejected token. */
  lemma KeyFailureIsRejection(token: string, authority: Authority, decoder: Decoder, s: KeyState)
    requires GetPublicKey(authority, s).key.Failure?
    ensures TryDecode(token, GetPublicKey(authority, s).key, decoder) == Rejected
    ensures ParseToken(token, true, authority, decoder, s).refreshes == 1
  {
    RejectionRefreshesOnce(token, authority, decoder, s);
  }

  /**
   * With the flag cleared there is a single attempt and no refresh; a failure
   * is then either expiry or invalidity.
   */
  lemma NoRefreshWithoutFlag(token: string, authority: Authority, decoder: Decoder, s: KeyState)
    ensures
      var run := ParseToken(token, false, authority, decoder, s);
      && run.attempts == 1
      && run.refreshes == 0
      && run.state == GetPublicKey(authority, s).state
      && (run.result.Failure? ==> run.result.error in {TOKEN_EXPIRED, TOKEN_INVALID})
  {
  }

  /**
   * For every input: at most one refresh, at most two attempts (recursion depth
   * at most 2), a second attempt only after a refresh, and at most three
   * requests to the authority (one per get_public_key and one for the refresh).
   */
  lemma RefreshBound(token: string, refetch: bool, authority: Authority, decoder: Decoder, s: KeyState)
    ensures
      var run := ParseToken(token, refetch, authority, decoder, s);
      && run.refreshes <= (if refetch then 1 else 0)
      && 1 <= run.attempts <= 1 + run.refreshes
      && run.state.requests <= s.requests + 3
  {
    var got := GetPublicKey(authority, s);
    GetPublicKeyAgreesWithFile(authority, s);
    NoRefreshWithoutFlag(token, authority, decoder, s);
    if refetch && TryDecode(token, got.key, decoder) == Rejected {
      var refreshed := UpdatePublicKey(authority, got.state);
      UpdateStoresReturnedKey(authority, got.state);
      if refreshed.key.Success? {
        NoRefreshWithoutFlag(token, authority, decoder, refreshed.state);
        GetPublicKeyAgreesWithFile(authority, refreshed.state);
      }
    }
  }
}

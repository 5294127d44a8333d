/**
 * The persisted public-key slot of storage/auth.py as an object: the key file
 * and the authority's request counter are fields that the key functions
 * overwrite in place. Every method is proved to return what the matching
 * function of module Auth returns and to leave the fields in the state that
 * function computes, so the lemmas of Auth (at most one refresh, expiry never
 * refreshes, the store/read round trip) hold of these methods too.
 */
module PublicKeyCache {
  import opened Wrappers
  import opened Auth

  class KeyCache {
    /** The content of the key file as written; None when opening or reading it raises. */
    var keyFile: Option<string>
    /** How many calls of request_public_key have been made so far, including calls that raised. */
    var requests: nat
    /** The key authority at the configured URL. */
    const authority: Authority

    constructor (authority: Authority, keyFile: Option<string>)
      ensures this.authority == authority
      ensures this.keyFile == keyFile && requests == 0
    {
      this.authority := authority;
      this.keyFile := keyFile;
      requests := 0;
    }

    /** The fields as a value of the pure model. */
    function State(): KeyState
      reads this
    {
      KeyState(keyFile, requests)
    }

    /**
     * read_public_key: the content with its line endings translated, or None;
     * reading changes nothing, so two reads in a row agree.
     */
    method ReadPublicKey() returns (key: Option<string>)
      ensures key == Auth.ReadPublicKey(State())
      ensures key.Some? <==> keyFile.Some?
      ensures key.Some? ==> '\r' !in key.value
    {
      match keyFile {
        case None =>
          key := None;
        case Some(content) =>
          NewlinesTranslated(content);
          key := Some(UniversalNewlines(content));
      }
    }

    /** store_public_key: the file holds exactly the given key afterwards. */
    method StorePublicKey(key: string)
      modifies this`keyFile
      ensures State() == Auth.StorePublicKey(key, old(State()))
      ensures keyFile == Some(key)
    {
      keyFile := Some(key);
    }

    /** request_public_key: one request to the authority; an exception escapes, and any status but 200 raises. */
    method RequestPublicKey() returns (key: Result<string, string>)
      modifies this`requests
      ensures KeyStep(key, State()) == Auth.RequestPublicKey(authority, old(State()))
    {
      var outcome := authority(requests);
      requests := requests + 1;
      if outcome.Failure? {
        return Failure(outcome.error);
      }
      var response := outcome.value;
      if response.status != HTTP_OK {
        return Failure(KEY_REQUEST_FAILED);
      }
      return Success(response.text);
    }

    /** update_public_key: request, store and return the key. */
    method UpdatePublicKey() returns (key: Result<string, string>)
      modifies this
      ensures KeyStep(key, State()) == Auth.UpdatePublicKey(authority, old(State()))
      ensures key.Success? ==> keyFile == Some(key.value)
    {
      key := RequestPublicKey();
      if key.Failure? {
        return;
      }
      StorePublicKey(key.value);
    }

    /** get_public_key: the stored key if the file yields a non-empty string, else a fresh one. */
    method GetPublicKey() returns (key: Result<string, string>)
      modifies this
      ensures KeyStep(key, State()) == Auth.GetPublicKey(authority, old(State()))
    {
      var stored := ReadPublicKey();
      if stored.Some? && stored.value != "" {
        return Success(stored.value);
      }
      key := UpdatePublicKey();
    }

    /**
     * parse_token: decode with the current key; on expiry fail; on any other
     * failure refresh the key and call itself once with the flag cleared, or
     * fail if the flag is clear.
     */
    method ParseToken(token: string, refetch: bool, decoder: Decoder) returns (result: Result<Claims, string>)
      modifies this
      decreases refetch
      ensures result == Auth.ParseToken(token, refetch, authority, decoder, old(State())).result
      ensures State() == Auth.ParseToken(token, refetch, authority, decoder, old(State())).state
    {
      var key := GetPublicKey();
      var decoded := if key.Success? then decoder(token, key.value, ALGORITHMS) else Rejected;
      match decoded {
        case Verified(claims) =>
          return Success(claims);
        case Expired =>
          return Failure(TOKEN_EXPIRED);
        case Rejected =>
          if !refetch {
            return Failure(TOKEN_INVALID);
          }
          var refreshed := UpdatePublicKey();
          if refreshed.Failure? {
            return Failure(refreshed.error);
          }
          result := ParseToken(token, false, decoder);
      }
    }
  }
}

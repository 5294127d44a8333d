# salt-storage: access gate, token parsing, submission store and submit command in Dafny

This project models the core of the SALT proposal storage service. It accepts a proposal upload over HTTP, and only callers holding an Admin bearer token get through. `submission.submit` saves the upload under a generated id and starts the external submit command in a thread. The repository module provides the operations on the submission tables. As written, the endpoint's call to `submit` raises (see "## Left out"), and none of the modelled files calls the repository.

The model has six modules: one per source file, a second one (`PublicKeyCache`) for the key file of storage/auth.py as a class, and a helper:

- `AccessGate` (storage/app.py). `EnforceAdminUser` is the middleware decision. It is a pure function of the `Authorization` header (None when absent) and of the token parser, which is an oracle. It returns the response, or `Forward`, together with the arguments the parser was consulted with, if any. The module also holds the `error` validator of the response model, the validation of a returned dict against that model, and the dict `submit_proposal` returns.
- `Auth` (storage/auth.py). `parse_token` and the key functions are pure functions over a `KeyState`. That state is the content of the key file as written (None when reading it raises) and the number of calls of `request_public_key` so far, counting calls that raise before a request is sent. Reading the file returns that content with universal-newline translation: every "\r\n" and every lone '\r' becomes '\n'. The JWT decoder is an oracle from (token, key, algorithms) to `Verified(claims) | Expired | Rejected`. The key authority is an oracle from that call number to an HTTP response, or to the message of the exception the request raises. `ParseRun` records how many attempts `parse_token` made and how many key refreshes its failure handler did.
- `PublicKeyCache`. Class `KeyCache` keeps the key file and the request counter as fields. Its methods are `ReadPublicKey`, `StorePublicKey`, `RequestPublicKey`, `UpdatePublicKey`, `GetPublicKey` and `ParseToken`. `ReadPublicKey` only reads the fields; the other methods update them in place. Each method is proved to return what the matching `Auth` function returns and to leave the fields in the state that function computes. So the `Auth` lemmas hold of the methods as well.
- `SubmissionRepository` (storage/repository/submission_repository.py). It holds the two enums with their value strings and class `SubmissionDatabase`:
  - the Submission table is a map from Identifier to row;
  - SubmissionLogEntry is a sequence of rows;
  - PiptUser is a read-only map from username to id;
  - the database clock is a parameter.
- `Submission` (storage/submission.py). It holds `str.replace`, `str.split(" ")` and `str.join` as recursive functions. The submit command's argument list is built from them. It also holds pathlib's joining of the submissions directory with a generated file id.
- `Wrappers`: `Option` and `Result`.

Four facts about the code shape the model:
- The code has no per-submission log sequence numbers. A log entry carries only its submission, its message and its type.
- The code writes no terminal status after the external command. The mapping from exit code to status is commented out, and the return code is ignored.
- The code stages the upload under its own freshly generated id, not under the submission id.
- The code adds no proposal-code arguments to the command.

## Model

| member | source | states |
|---|---|---|
| AccessGate.EnforceAdminUser | storage/app.py:32-55 | the parser is consulted exactly when the header is present and starts with "Bearer "; it gets the header minus that prefix (prefix + token == header), always with refetch enabled |
| AccessGate.DecisionIsFirstFailingCheck | storage/app.py:35-55 | the decision equals the refusal of the first failing check (header present, Bearer scheme, token parses, Admin role) in source order, and Forward when none fails |
| AccessGate.ForwardOnlyIfAllPass | storage/app.py:35-55 | a request is forwarded if and only if all four checks pass |
| AccessGate.MissingHeaderIs401 | storage/app.py:35-36 | no Authorization header gives 401 "Authorization header missing." and the parser is never consulted |
| AccessGate.NonBearerHeaderIs401 | storage/app.py:38-44 | a header not starting with "Bearer " gives 401 with the format message and no parser call, whatever the parser would say |
| AccessGate.ParseFailureIs401 | storage/app.py:46-50 | any parser failure gives 401 "Invalid or expired token." |
| AccessGate.MissingAdminRoleIs403 | storage/app.py:52-53 | parsed claims whose roles lack "Admin" (empty, or absent and defaulting to []) give 403 with an empty body |
| AccessGate.AdminIsForwarded | storage/app.py:52-55 | parsed claims with the Admin role are forwarded, after exactly one parser call with the stripped token and refetch true |
| AccessGate.ExpiredTokenIs401WithoutRefresh | storage/app.py:46-50 | with parse_token as the parser, an expired token gives 401 and causes no key refresh |
| AccessGate.BothFieldsRejected | storage/app.py:16-29 | a response dict with both submission_id and error is rejected with the mutual-exclusion error; an accepted response never has both set |
| AccessGate.SubmitProposalHasOneKey | storage/app.py:69-75 | submit_proposal returns exactly one key: submission_id with the returned id, or error with the raised message; the response model accepts it and the body keeps exactly that key |
| Auth.RequestFailsUnlessOk | storage/auth.py:56-64 | request_public_key raises exactly when the request itself raises (that exception escapes) or the status is not 200 (the fixed message), returns the response text otherwise, counts one call and does not touch the key file |
| Auth.NewlinesTranslated | storage/auth.py:75-76 | the text-mode read leaves no '\r', leaves '\r'-free text unchanged (so translating twice is translating once), never lengthens the text and empties only empty text |
| Auth.StoreThenRead | storage/auth.py:67-88 | reading after storing a key yields that key with its line endings translated, so exactly the key when it has no '\r'; storing makes no request |
| Auth.UpdateStoresReturnedKey | storage/auth.py:45-53 | update_public_key makes one request, succeeds exactly when the response is a 200, writes exactly the key it returns (a later read yields it with line endings translated), and on failure raises the request's error and leaves the file as it was |
| Auth.StoredKeyNeedsNoRequest | storage/auth.py:38-40 | a non-empty stored key is returned without contacting the authority and with no state change |
| Auth.MissingKeyIsFetched | storage/auth.py:38-42 | a missing, unreadable or empty key file makes get_public_key behave as update_public_key: fetch, write the returned key to the file, return it |
| Auth.GetPublicKeyAgreesWithFile | storage/auth.py:31-42 | get_public_key makes at most one request, and a later read of the file yields the key it returned, up to line-ending translation |
| Auth.DecodedClaimsReturned | storage/auth.py:18-20 | when decoding with the key from get_public_key and the algorithm list ["RS256"] succeeds, the decoder's claims are returned after one attempt with no refresh |
| Auth.ExpiryNeverRefreshes | storage/auth.py:21-22 | an expired signature fails with "The token has expired." after one attempt, with no refresh and no state change beyond get_public_key's, whatever the flag |
| Auth.RejectionWithoutFlag | storage/auth.py:27-28 | with the flag false, any other failure raises "Invalid token." with no refresh |
| Auth.RejectionRefreshesOnce | storage/auth.py:23-26 | with the flag true, any other failure refreshes the key exactly once. A failing refresh raises its own error (the request's exception or the non-200 message). Otherwise the file holds the fresh key, a second attempt runs with the flag false, and its result is the result |
| Auth.KeyFailureIsRejection | storage/auth.py:18-26 | a failure to obtain the key in the first attempt is handled as a rejected token and takes the refresh path |
| Auth.NoRefreshWithoutFlag | storage/auth.py:9-28 | with the flag false there is one attempt and no refresh, and a failure is either the expiry or the invalid-token error |
| Auth.RefreshBound | storage/auth.py:9-28 | for every input: at most one refresh (none without the flag), at most two attempts and never a second attempt without a refresh, and at most three authority requests |
| PublicKeyCache.KeyCache.ReadPublicKey | storage/auth.py:67-78 | returns what Auth.ReadPublicKey gives: the file content with line endings translated, so with no '\r', or None exactly when reading raises; changes nothing |
| PublicKeyCache.KeyCache.StorePublicKey | storage/auth.py:81-88 | the file holds exactly the given key as written afterwards; the request counter is unchanged |
| PublicKeyCache.KeyCache.RequestPublicKey | storage/auth.py:56-64 | the returned key or error and the new state equal those of Auth.RequestPublicKey |
| PublicKeyCache.KeyCache.UpdatePublicKey | storage/auth.py:45-53 | result and new state equal Auth.UpdatePublicKey's; on success the file holds the returned key |
| PublicKeyCache.KeyCache.GetPublicKey | storage/auth.py:31-42 | result and new state equal Auth.GetPublicKey's |
| PublicKeyCache.KeyCache.ParseToken | storage/auth.py:9-28 | result and new state equal Auth.ParseToken's, so every Auth lemma on parse_token holds of it |
| SubmissionRepository.StatusValueRoundTrip | storage/repository/submission_repository.py:7-12 | each status reads back from its stored string, and only its own value string reads back as it |
| SubmissionRepository.MessageTypeValueRoundTrip | storage/repository/submission_repository.py:15-20 | each message type reads back from its stored string, and only its own value string reads back as it |
| SubmissionRepository.ValuesInjective | storage/repository/submission_repository.py:7-20 | distinct statuses, and distinct message types, store distinct strings |
| SubmissionRepository.Finished | storage/repository/submission_repository.py:45-52 | the updated row has the given status value and finish time, and every other field as before |
| SubmissionRepository.SubmissionDatabase.CreateSubmission | storage/repository/submission_repository.py:23-38 | adds exactly one row under the identifier: a new Submission_Id, the submitter's user id (None for an unknown username), "In Progress", the start time, no finish time; the log and the other rows' ids are unchanged |
| SubmissionRepository.SubmissionDatabase.UpdateSubmission | storage/repository/submission_repository.py:41-53 | the matching row gets the given status (any status, from any status) and finish time; every other row and field and the log are unchanged; an unknown identifier changes nothing |
| SubmissionRepository.SubmissionDatabase.LogSubmissionMessage | storage/repository/submission_repository.py:56-77 | appends exactly one entry linked to the Submission_Id of that identifier (None if unknown), carrying the message and the type's value; earlier entries and the Submission rows are unchanged |
| SubmissionRepository.SubmissionDatabase.LinkedRowIsUnique | storage/repository/submission_repository.py:64-70 | the Submission_Id a log entry is linked to belongs to no other row than the one with its identifier |
| Submission.ReplaceWithoutOccurrence | storage/submission.py:43 | a string without the pattern is returned unchanged by replace |
| Submission.ReplaceLength | storage/submission.py:43 | replacing k occurrences changes the length by k times (replacement length - pattern length) |
| Submission.ReplaceCountChar | storage/submission.py:43 | replacing k occurrences changes a character's count by k times (its count in the replacement - its count in the pattern) |
| Submission.SplitLength | storage/submission.py:44 | split gives one more part than there are separators (consecutive separators give empty parts) |
| Submission.SplitPartsFree | storage/submission.py:44 | no part contains the separator |
| Submission.JoinSplit | storage/submission.py:44 | joining the parts with the separator reproduces the string exactly |
| Submission.SplitJoin | storage/submission.py:44 | splitting a join of a non-empty list of separator-free parts gives back the list |
| Submission.CommandArguments | storage/submission.py:43-44 | the argument list is never empty |
| Submission.CommandWithoutPlaceholder | storage/submission.py:43-44 | a template without "FILE" is the command line itself and is split as it is |
| Submission.CommandLength | storage/submission.py:43 | the command line's length is len(template) + k * (len(path) - 4) for k occurrences of "FILE" |
| Submission.ArgumentsRebuildCommand | storage/submission.py:43-44 | the arguments joined with " " reproduce the command line, no argument contains a space, and there is one more argument than spaces |
| Submission.ArgumentCountKept | storage/submission.py:43-44 | if the absolute path has no space, the command has as many arguments as the template |
| Submission.SavedFileNamedById | storage/submission.py:60-62 | the saved file's last path component is exactly the generated id, whatever the directory |
| Submission.SavedPathsDistinctByFileId | storage/submission.py:29-62 | two submissions into the same directory save to the same path exactly when their generated file ids are equal, whatever submission ids they return |

## Left out

- FastAPI machinery: middleware dispatch, `call_next`, multipart parsing and the 422 from request validation. The gate's `Forward` stands for `call_next`.
- Header lookup: the `Authorization` header is given as an optional string. Starlette's case-insensitive header names and duplicate headers are not modelled.
- Claims: `roles` is modelled as an optional list of strings. A `roles` claim of another JSON type is not modelled. Python's `in` would then test substrings of a string, or raise for a number or null.
- JWT/RS256 cryptography: the decoder is an oracle. That it receives `["RS256"]` is visible in the model only as the argument of the oracle call.
- Network and file I/O for the key. `httpx.get`, the `SALT_API_URL` lookup and the debug print become the authority oracle, which answers with a response or with the message of the exception raised. `open`/`read`/`write` become the key-file field.
- Text decoding of the key file: a read is modelled as universal-newline translation of the stored characters. Byte decoding in the locale's encoding, and the newline translation on write that only non-POSIX systems do, are not modelled.
- `store_public_key`: writing the key file is assumed to succeed. A failing write, which would raise out of `get_public_key` or `update_public_key`, is not modelled.
- Concurrency: concurrent readers of the key file, the background thread, and concurrent database writers are not modelled.
- The SQL engine: `NOW()` is a timestamp parameter. The status and message-type id lookups are represented by the stored value strings. A NULL from the username subquery is kept as `None`, but no NOT NULL constraint is modelled.
- SubmissionRepository.SubmissionDatabase.CreateSubmission: requires an identifier not already in the table, because identifiers are fresh uuid4 strings. What the database does on a duplicate identifier depends on a schema that is not part of this model.
- `submit`, `execute_submission` and `save_submitted_content` as effects: `uuid4`, the upload's `seek`/`read`, the file write, `threading.Thread` and `subprocess.run` are not modelled. Ids and the working directory are parameters. Only the path and argument-list computations are modelled.
- Submission.JoinPath: models pathlib joining of a relative, slash-free name. Pathlib's normalisation of repeated separators and "." components is not modelled.
- The status and log outcome mapping after the external command (storage/submission.py:45-50) is commented out in the code, so it is not modelled.
- The end-to-end submit call. `submit_proposal` passes `submitter=` to `submission.submit`, which has no such parameter (storage/app.py:70-72, storage/submission.py:22). The call therefore raises, and the endpoint answers with an `error` dict. The model only covers the dict shape for either outcome (`SubmitProposal`); it does not wire the two files together.
- Pydantic details: pydantic v1 semantics are assumed. An `Optional[str]` field without a default is optional and defaults to None, and a plain `@validator` runs only when its field is supplied. The response model is validated from the dict the endpoint returns. A field given explicitly as None does not occur there and is not modelled.

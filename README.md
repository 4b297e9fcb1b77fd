# social-network: identity, sessions and posts, in Dafny

A model of the request path of the social-network back end and proofs
about it. The back end has three Go services.

- **API gateway.** It validates the RS256 JWT in the `Authorization`
  header (an optional `Bearer ` prefix and surrounding white space are
  stripped). It refuses with a 401 and a message chosen by the failure
  class. It stores the token's subject as the request's identity, and its
  post handlers forward that identity as `x-user-id` gRPC metadata. The
  model also covers the gateway's validators (UUID ids, positive page
  numbers) and its mapping of gRPC status codes to HTTP replies.
- **User service.** It issues tokens valid for 180 seconds and records one
  session per login. Its own middleware strips exactly one `Bearer ` and
  demands an unexpired session. It creates, logs in, logs out, updates and
  deletes users, and it has phone, password and identifier validators.
- **Post service.** Its interceptor copies the first `x-user-id` value into
  the request context. Its service layer checks the caller and the post id
  and enforces authorship. Its repository filters, orders newest first and
  pages with 64-bit offsets. Its Kafka publishers send JSON or
  schema-registry–framed Avro events, routed by topic and keyed by user id.

Each Go file of the core is one Dafny module:

- **Pure code becomes functions and lemmas:** `GatewayToken`,
  `GatewayMiddleware`, `GrpcErrors`, `GatewayValidators`, `PostHandlers`,
  `Interceptor`, `UserValidators`, `Identifier` and `WireFormat`.
- **Objects whose state changes become classes:**
  - the tables are `seq` fields of `SessionRepo`, `UserRepo` and `PostRepo`;
  - the package-level JWT state is the class `JwtAuth`;
  - the services are the classes `AccountService` and `PostsService`;
  - the publisher maps are `map` fields;
  - the Avro frame is built in a `byte` array.
- **Library behaviour the core depends on** is modelled in small helper
  modules:
  - `GoStrings`: `strings.TrimSpace`, `strings.TrimPrefix`, `strings.Contains`;
  - `Strconv`: `strconv.Atoi`, `strconv.Itoa`;
  - `Kafka`: the writer, message and delivery values of `kafka-go`, shared by both services' publishers;
  - `JwtLib`: the golang-jwt v5 parse order and claim checks;
  - `Grpc`: status codes.
- **`IdentityFlow`** holds end-to-end lemmas across services. A token the
  user service issues is admitted by the gateway exactly while it is
  unexpired. The identity the gateway admits is the one the post service
  reads.

Clocks, key material, hashing, IP parsing and marshalling are parameters:
- `now` is an integer number of seconds;
- keys are `KeyId`s;
- `bcryptHash`, `matches`, `ipValid`, `validateUserID` and `validateLogin`
  are functions supplied by the caller;
- `decode` is a function from the token text to the decoded token;
- a marshalling outcome is passed in as a `Result`.

## Model

| member | source | states |
|---|---|---|
| GoStrings.TrimLeftSpace | src/services/api-gateway/internal/auth/token.go:41 | the result is a suffix of the input that does not start with white space, and everything dropped was white space |
| GoStrings.TrimRightSpace | src/services/api-gateway/internal/auth/token.go:41 | the result is a prefix of the input that does not end with white space, and everything dropped was white space |
| GoStrings.TrimSpace | src/services/api-gateway/internal/auth/token.go:41 | the result has no white space at either end and occurs in the input |
| Strconv.Atoi | src/services/api-gateway/internal/utils/validators.go:32-40 | a parsed value fits in an int64 and comes from an optional sign followed by ASCII digits only |
| Strconv.Itoa | src/services/post-service/internal/service/post_service.go:247-252 | the text is non-empty: only digits for a non-negative number, a `-` followed by digits for a negative one |
| Strconv.DigitsValueOfDigits | src/services/post-service/internal/service/post_service.go:247-252 | the decimal digits printed for a natural number read back to that number |
| Strconv.AtoiOfItoa | src/services/post-service/internal/service/post_service.go:247-252 | parsing what `Itoa` prints gives back every int64 |
| GatewayToken.ErrorText | src/services/api-gateway/internal/auth/token.go:57-68 | the expired, not-yet-valid and signature refusals are the bare sentinels `token is expired`, `token is not valid yet` and `token signature is invalid`; a text starts with `token validation failed: ` iff the refusal is a wrapped parse failure, and the rest of that text is the library's error text |
| GatewayToken.Normalize | src/services/api-gateway/internal/auth/token.go:41 | the normalised header has no leading or trailing white space |
| GatewayToken.ValidateJwt | src/services/api-gateway/internal/auth/token.go:40-80 | an empty token after normalisation and a missing public key are refused first, each exactly in its own case; success iff the token is well formed, RSA-signed by the configured key, unexpired, already valid and has a non-empty subject, and then the identity is that subject; a wrapped refusal carries exactly the library's parse error, which is then never the signature or claims one |
| GatewayToken.CheckToken | src/services/api-gateway/internal/auth/token.go:42-79 | the same verdict on an already normalised token, with the claims carried along on success |
| GatewayToken.EmptyAfterTrimming | src/services/api-gateway/internal/auth/token.go:41-44 | an empty header and a bare `Bearer ` are both the empty-token refusal |
| GatewayToken.PrefixIsOptional | src/services/api-gateway/internal/auth/token.go:41 | a trimmed token not starting with `Bearer` normalises to itself with or without the `Bearer ` prefix |
| GatewayToken.NormalizeOfBearer | src/services/api-gateway/internal/auth/token.go:41 | `Bearer ` followed by a trimmed token normalises to that token |
| GatewayToken.PrefixDoesNotChangeVerdict | src/services/api-gateway/internal/auth/token.go:40-80 | validating `Bearer <t>` gives the same result as validating `<t>` |
| GatewayToken.WrongAlgorithm | src/services/api-gateway/internal/auth/token.go:50-55 | a token with a method the library implements but that is not RSA is refused by the key function, and the error text names the method |
| GatewayToken.UnknownAlgorithm | src/services/api-gateway/internal/auth/token.go:50-67 | a token whose method the library does not implement, or whose header has no `alg`, is refused before the key function runs and comes back wrapped |
| GatewayToken.KeyfuncCauseIsQuoted | src/services/api-gateway/internal/auth/token.go:57-68 | the wrapped error text contains the key function's message |
| GatewayToken.ForeignKeyIsBadSignature | src/services/api-gateway/internal/auth/token.go:57-68 | an RSA token signed by another key is the signature-invalid refusal |
| GatewayToken.PastExpiryIsExpired | src/services/api-gateway/internal/auth/token.go:57-68 | a correctly signed token past its expiry is the expired refusal |
| GatewayToken.BeforeNotBeforeIsNotValidYet | src/services/api-gateway/internal/auth/token.go:57-68 | an unexpired but not-yet-valid token is the not-valid-yet refusal |
| GatewayToken.NoSubjectIsMissingSubject | src/services/api-gateway/internal/auth/token.go:70-79 | an otherwise valid token without a non-empty string subject is the missing-subject refusal |
| GatewayToken.OtherFailuresAreWrapped | src/services/api-gateway/internal/auth/token.go:57-68 | a malformed token is a wrapped validation failure that carries the library's description of the defect |
| JwtLib.RsaKeyfunc | src/services/api-gateway/internal/auth/token.go:50-55 | the configured key is returned iff the token's algorithm is an RSA one; otherwise the error names the algorithm |
| JwtLib.Parse | src/services/api-gateway/internal/auth/token.go:50-56 | parsing succeeds iff the token is well formed, RSA, signed by the configured key, unexpired and already valid, and then yields the token's claims; it is malformed (with the defect) iff not well formed, an unknown method iff well formed with a method the library lacks, a key-function refusal (quoting `unexpected signing method: <alg>`) iff known but not RSA, a bad signature iff RSA but signed by another key, and a claims failure iff correctly signed but expired or not yet valid, with both flags equal to those two conditions |
| JwtLib.FailureText | src/services/api-gateway/internal/auth/token.go:67 | a malformed token's text is `token is malformed: ` and the defect; a key-function refusal's is `token is unverifiable: error while executing keyfunc: ` and the cause; a claims failure that includes expiry starts with `token has invalid claims: token is expired` |
| GatewayMiddleware.RefusalMessage | src/services/api-gateway/internal/auth/middleware.go:25-39 | the three sentinel tests look through wrapping: a wrapped expired claims failure is `Token has expired`, a wrapped not-yet-valid one `Token not yet valid`, a wrapped bad signature `Invalid token signature`, as are the bare sentinels; a missing subject and an empty token get their own messages; a key-function refusal quoting the phrase, and a malformed token whose detail contains `unexpected signing method`, get `Invalid token (signing method)`; a missing key and an unknown method get `Invalid token` |
| GatewayMiddleware.MessagesFollowReason | src/services/api-gateway/internal/auth/middleware.go:25-39 | on the refusals the token check returns, each of the expired, not-yet-valid, bad-signature, missing-subject and empty-token messages is given iff the reason has that tag; a key-function refusal gets the signing-method message, and a missing key or an unknown method the generic one |
| GatewayMiddleware.MessageFollowsTag | src/services/api-gateway/internal/auth/middleware.go:25-39 | the same classification for any reason that is not a wrapped signature or claims failure |
| GatewayMiddleware.ExactTextsIdentifyReason | src/services/api-gateway/internal/auth/middleware.go:31-36 | only the missing-subject refusal has its exact text, and only the empty-token refusal has its exact text |
| GatewayMiddleware.UnwrappedTextsLackPhrase | src/services/api-gateway/internal/auth/middleware.go:33 | none of the missing-key, empty-token, not-yet-valid, signature and unknown-method texts contains `unexpected signing method` |
| GatewayMiddleware.KeyfuncRefusalQuotesPhrase | src/services/api-gateway/internal/auth/middleware.go:33 | a key-function refusal whose cause contains `unexpected signing method`, and a malformed token whose detail does, have texts containing it |
| GatewayMiddleware.Middleware | src/services/api-gateway/internal/auth/middleware.go:12-49 | a missing header is refused with `Missing Authorization token`; the request proceeds iff the header validates, and then with the validated identity; every other refusal carries the reason's message |
| GatewayMiddleware.EveryRefusalIsUnauthorized | src/services/api-gateway/internal/auth/middleware.go:12-49 | every refusal is a 401 |
| GatewayMiddleware.ProceedsOnlyWithSubject | src/services/api-gateway/internal/auth/middleware.go:12-49 | the request proceeds iff the normalised token is acceptable, and the forwarded identity is the token's non-empty subject |
| GatewayMiddleware.BareBearerHeader | src/services/api-gateway/internal/auth/middleware.go:25-39 | a bare `Bearer ` header is a 401 reporting a bad header format |
| GatewayMiddleware.MissingKeyIsGenericRefusal | src/services/api-gateway/internal/auth/middleware.go:25-39 | without a configured public key any non-empty token gets the generic `Invalid token` |
| GrpcErrors.MapGrpcError | src/services/api-gateway/internal/handlers/grpc_errors.go:11-42 | no error, no reply; a plain error is a 500; a status error gets the HTTP status of its code and, for the echoed codes, its own message |
| GrpcErrors.OtherCodesHideTheMessage | src/services/api-gateway/internal/handlers/grpc_errors.go:11-42 | for codes that are not echoed, the reply does not depend on the message |
| GrpcErrors.AnswersAreErrors | src/services/api-gateway/internal/handlers/grpc_errors.go:11-42 | every mapped error is a 4xx or 5xx status |
| GrpcErrors.UnlistedCodesAreInternal | src/services/api-gateway/internal/handlers/grpc_errors.go:11-42 | a code mapped to 500 always replies with the generic internal message |
| GatewayValidators.ValidateUserID | src/services/api-gateway/internal/utils/validators.go:19-29 | accepted iff the value is a string in canonical UUID form; otherwise the user-id error |
| GatewayValidators.ValidatePostID | src/services/api-gateway/internal/utils/validators.go:47-57 | accepted iff the value is a string in canonical UUID form; otherwise the post-id error |
| GatewayValidators.ValidatePage | src/services/api-gateway/internal/utils/validators.go:31-37 | accepted iff the text is a decimal integer of at least 1, returning that number; otherwise `(0, ErrInvalidPage)` |
| GatewayValidators.ValidatePageSize | src/services/api-gateway/internal/utils/validators.go:39-45 | accepted iff the text is a decimal integer of at least 1; the refusal is `ErrInvalidPage`, not `ErrInvalidPageSize` |
| GatewayValidators.ValidatePageOfItoa | src/services/api-gateway/internal/utils/validators.go:31-37 | for every 64-bit n, the decimal text of n is accepted iff n >= 1, and reads back as n |
| GatewayValidators.PageExamples | src/services/api-gateway/internal/utils/validators_test.go:37-42 | `0`, `-3` and `abc` are refused and `100000` is accepted |
| PostHandlers.ToInt32 | src/services/api-gateway/internal/handlers/post_handlers.go:195-219 | `int32` truncation: identity on the 32-bit range and congruent modulo 2^32 everywhere |
| PostHandlers.CreateAuthContext | src/services/api-gateway/internal/handlers/post_handlers.go:31-44 | metadata is built iff the stored identity is a non-empty string, and it carries exactly that identity; each failure has its own internal error |
| PostHandlers.ParsePagination | src/services/api-gateway/internal/handlers/post_handlers.go:46-65 | with absent parameters defaulting to 1 and 10, the result is accepted iff both are positive decimal integers; the page is judged first |
| PostHandlers.DefaultPagination | src/services/api-gateway/internal/handlers/post_handlers.go:47-51 | no parameters at all means page 1 of size 10 |
| PostHandlers.ErrorReply | src/services/api-gateway/internal/handlers/grpc_errors.go:11-42 | the reply is the status and `{"error": message}` that MapGrpcError writes for the error: a 4xx or 5xx, and for an Internal status the 500 with the generic downstream text |
| PostHandlers.CreatePost | src/services/api-gateway/internal/handlers/post_handlers.go:67-92 | forwarded iff the body parses, the title is non-empty and the identity is valid, and then unchanged with that identity; a bad body is 400 `Invalid request body: <error>`, an empty title 400 `title is required`, a bad identity the MapGrpcError reply of its error |
| PostHandlers.UpdatePost | src/services/api-gateway/internal/handlers/post_handlers.go:116-171 | forwarded iff the post id is present, the body parses, no given title or description is empty and the identity is valid; absent fields are sent as their zero values; each refusal, in the order the handler checks them, has its exact 400 text, and a bad identity the MapGrpcError reply of its error |
| PostHandlers.GetPost | src/services/api-gateway/internal/handlers/post_handlers.go:94-114 | forwarded iff the post id is present and the identity valid; an empty id is 400 `Post ID parameter is required`, a bad identity the MapGrpcError reply of its error |
| PostHandlers.DeletePost | src/services/api-gateway/internal/handlers/post_handlers.go:173-193 | forwarded iff the post id is present and the identity valid; an empty id is 400 `Post ID parameter is required`, a bad identity the MapGrpcError reply of its error |
| PostHandlers.GetMyPosts | src/services/api-gateway/internal/handlers/post_handlers.go:195-219 | a pagination error is a 400 with nothing forwarded; otherwise forwarded iff the identity is valid, with the page numbers truncated to 32 bits, and a bad identity is the MapGrpcError reply of its error |
| PostHandlers.GetAllPublicPosts | src/services/api-gateway/internal/handlers/post_handlers.go:221-245 | as GetMyPosts, with no user filter |
| PostHandlers.GetUserPublicPosts | src/services/api-gateway/internal/handlers/post_handlers.go:247-277 | as written: after a pagination error the 400 is written and the call is still forwarded, for page 0 of size 0; a bad identity adds its MapGrpcError reply after any pagination 400 |
| PostHandlers.GetUserPublicPostsIntended | src/services/api-gateway/internal/handlers/post_handlers.go:247-277 | the corrected handler: a pagination error ends the request; forwarded iff the target, the pagination and the identity are all valid; exactly one reply iff nothing is forwarded, and a bad identity is the MapGrpcError reply of its error |
| PostHandlers.IdentityFailureIsInternal | src/services/api-gateway/internal/handlers/post_handlers.go:31-44 | a missing or malformed stored identity is always answered 500 `An internal error occurred in a downstream service`, since both of its errors are Internal (grpc_errors.go:39-40) |
| PostHandlers.IntendedAgreesOnReadablePages | src/services/api-gateway/internal/handlers/post_handlers.go:254-257 | the two handlers agree whenever the pagination is accepted or the target is missing |
| Interceptor.Get | src/services/post-service/internal/auth/interceptor.go:26 | the values stored under a key, or none |
| Interceptor.FirstUserID | src/services/post-service/internal/auth/interceptor.go:26-30 | the first `x-user-id` value, or empty when there is none |
| Interceptor.HandlerContext | src/services/post-service/internal/auth/interceptor.go:19-41 | the handler sees the same metadata; the identity is attached only when metadata exists and its first user id is non-empty, and then it is that id |
| Interceptor.AuthInterceptor | src/services/post-service/internal/auth/interceptor.go:19-41 | the handler is always called (never refused), with the handler context |
| Interceptor.GetUserIDFromContext | src/services/post-service/internal/auth/interceptor.go:43-50 | succeeds iff a non-empty identity is attached, returning it; otherwise the unauthenticated error |
| Interceptor.IdentityComesFromFirstValue | src/services/post-service/internal/auth/interceptor.go:19-50 | end to end, the service sees an identity iff the first metadata value is non-empty, and it is that value |
| Interceptor.NoMetadataIsUnauthenticated | src/services/post-service/internal/auth/interceptor.go:20-24 | without metadata the service sees no identity |
| UserAuth.TrimBearerPrefix | src/services/user-service/internal/auth/jwt.go:87-93 | the text changes iff it is longer than `Bearer ` and starts with it, and then exactly the prefix is removed; the result is always a suffix of the input |
| UserAuth.TrimBearerPrefixExamples | src/services/user-service/internal/auth/jwt_test.go:60-78 | the empty string and the bare prefix are kept; `Bearer mytoken225` and `mytoken225` both give `mytoken225` |
| UserAuth.SubjectValue | src/services/user-service/internal/auth/jwt.go:130-135 | the `sub` claim is a string value iff it is present, and then it is that string |
| UserAuth.NewSession | src/services/user-service/internal/auth/jwt.go:70-85 | a session for the user and token at the given address, expiring 180 seconds after `now` |
| UserAuth.JwtAuth.constructor | src/services/user-service/internal/auth/jwt.go:18-24 | the keys are the given ones and no session repository is set |
| UserAuth.JwtAuth.SetSessionRepo | src/services/user-service/internal/auth/jwt.go:55-57 | the session repository is the given one |
| UserAuth.JwtAuth.GenerateToken | src/services/user-service/internal/auth/jwt.go:59-68 | an RS256 token signed by the private key with the user's id as subject and login, issued now and expiring 180 seconds later, with no not-before |
| UserAuth.JwtAuth.CreateSession | src/services/user-service/internal/auth/jwt.go:70-85 | no repository and an invalid IP are refused with their messages and nothing is stored; otherwise exactly one session is appended |
| UserAuth.JwtAuth.DeleteSession | src/services/user-service/internal/auth/jwt.go:95-97 | the sessions of that token are removed; success iff there was one |
| UserAuth.JwtAuth.JWTAuthMiddleware | src/services/user-service/internal/auth/jwt.go:99-138 | a missing header is `Missing Authorization token`, a token the library rejects `Invalid token`, a parsed token without a session row `Session not found`, and one whose session is past its expiry `Session expired`; it proceeds iff the header is present, its token (one `Bearer ` stripped) parses, a session exists for it and has not expired; the identity is the `sub` claim; every refusal is a 401; the session repository is needed only once the token has parsed |
| SessionRepository.FindByToken | src/services/user-service/internal/repository/session_repo.go:34-50 | a found session has that token and is stored; none is found iff no stored session has it |
| SessionRepository.WithoutToken | src/services/user-service/internal/repository/session_repo.go:52-66 | exactly the sessions with a different token remain; the length is unchanged iff none matched |
| SessionRepository.OtherTokensUnchanged | src/services/user-service/internal/repository/session_repo.go:52-66 | deleting one token does not change the lookup of any other |
| SessionRepository.DeleteIsIdempotent | src/services/user-service/internal/repository/session_repo.go:52-66 | deleting a token twice is deleting it once |
| SessionRepository.LookupFindsOldestSession | src/services/user-service/internal/repository/session_repo.go:25-50 | with the first-row choice among duplicate tokens, appending a session does not change the lookup of a token already stored |
| SessionRepository.UniqueTokenFindsItsRow | src/services/user-service/internal/repository/session_repo.go:34-50 | in a table where no two sessions share a token, the lookup of a stored session's token finds that session, whatever the row order |
| SessionRepository.LookupFindsNewSession | src/services/user-service/internal/repository/session_repo.go:25-50 | a session stored under a fresh token is the one found |
| SessionRepository.SessionRepo.constructor | src/services/user-service/internal/repository/session_repo.go:21-23 | the table starts empty |
| SessionRepository.SessionRepo.CreateSession | src/services/user-service/internal/repository/session_repo.go:25-32 | the session, with its id and creation time, is appended |
| SessionRepository.SessionRepo.GetSessionByToken | src/services/user-service/internal/repository/session_repo.go:34-50 | found iff a stored session has the token, and then it is one of them; otherwise `session not found` |
| SessionRepository.SessionRepo.DeleteSessionByToken | src/services/user-service/internal/repository/session_repo.go:52-66 | every session of the token is removed; success iff one existed; afterwards the token is not found |
| SessionRepository.DeleteLeavesUnmatched | src/services/user-service/internal/repository/session_repo.go:52-66 | deleting a token no session has changes nothing |
| UserRepository.FindByLogin | src/services/user-service/internal/repository/user_repo.go:36-50 | a found user has that login and is stored; none iff no stored user has it |
| UserRepository.FindByID | src/services/user-service/internal/repository/user_repo.go:52-66 | a found user has that id and is stored; none iff no stored user has it |
| UserRepository.WithProfile | src/services/user-service/internal/repository/user_repo.go:68-83 | a row keeps its id, login, hash and creation time and takes the new profile fields and update time |
| UserRepository.UpdateRows | src/services/user-service/internal/repository/user_repo.go:68-83 | rows with the id get the new profile, all others are unchanged |
| UserRepository.WithoutID | src/services/user-service/internal/repository/user_repo.go:85-99 | exactly the users with a different id remain |
| UserRepository.UpdateIsVisible | src/services/user-service/internal/repository/user_repo.go:68-83 | after an update the looked-up row carries the new profile |
| UserRepository.UpdateLeavesOthers | src/services/user-service/internal/repository/user_repo.go:68-83 | an update does not change the lookup of another id |
| UserRepository.UpdateOfMissingID | src/services/user-service/internal/repository/user_repo.go:68-83 | updating a missing id changes nothing |
| UserRepository.DeleteOfMissingID | src/services/user-service/internal/repository/user_repo.go:85-99 | deleting a missing id changes nothing |
| UserRepository.UserRepo.constructor | src/services/user-service/internal/repository/user_repo.go:22-24 | the table starts empty |
| UserRepository.UserRepo.Create | src/services/user-service/internal/repository/user_repo.go:26-34 | the user, with its id and both timestamps set to now, is appended |
| UserRepository.UserRepo.GetByLogin | src/services/user-service/internal/repository/user_repo.go:36-50 | found iff a stored user has the login; otherwise `user not found` |
| UserRepository.UserRepo.GetByID | src/services/user-service/internal/repository/user_repo.go:52-66 | found iff a stored user has the id; otherwise `user not found` |
| UserRepository.UserRepo.Update | src/services/user-service/internal/repository/user_repo.go:68-83 | rows with the id take the new profile; success iff one existed, otherwise nothing changes |
| UserRepository.UserRepo.Delete | src/services/user-service/internal/repository/user_repo.go:85-99 | rows with the id are removed; success iff one existed; afterwards the id is not found |
| UserService.NewUser | src/services/user-service/internal/service/user_service.go:54-61 | the new record carries the given login, names, email and hash and an empty phone and bio |
| UserService.EditedProfile | src/services/user-service/internal/service/user_service.go:151-155 | the record takes the five profile fields and keeps everything else |
| UserService.AccountService.constructor | src/services/user-service/internal/service/user_service.go:37-43 | the service holds the given repositories and authenticator |
| UserService.AccountService.CreateUser | src/services/user-service/internal/service/user_service.go:45-106 | a taken login and a hashing failure are refused with nothing stored; otherwise exactly the new user is appended and returned with a token issued for it |
| UserService.AccountService.Login | src/services/user-service/internal/service/user_service.go:108-125 | unknown login, then wrong password, are refused with nothing stored; success iff the password matches and the session can be opened, and then the session appended is for exactly the returned token |
| UserService.AccountService.Logout | src/services/user-service/internal/service/user_service.go:127-133 | the sessions of the token, with one `Bearer ` removed, are deleted; success iff one existed |
| UserService.AccountService.UpdateUser | src/services/user-service/internal/service/user_service.go:143-161 | only the user themself may update; a missing user is refused; otherwise the stored row takes the new profile and the edited record is returned |
| UserService.AccountService.DeleteUser | src/services/user-service/internal/service/user_service.go:163-168 | the token's sessions are deleted first; only when one existed is the user row deleted, and the result reports whether it existed |
| UserValidators.MatchDigits | src/services/user-service/internal/utils/validators.go:11-17 | matching the digit run is: all digits, and 7 to 15 of them counting those already read |
| UserValidators.MatchPhone | src/services/user-service/internal/utils/validators.go:11-17 | the matcher accepts exactly the phone pattern: an optional `+` then 7 to 15 digits |
| UserValidators.PhoneValidator | src/services/user-service/internal/utils/validators.go:11-17 | a value is accepted iff it is a string matching the phone pattern |
| UserValidators.HasCharIn | src/services/user-service/internal/utils/validators.go:29-33 | found iff some character lies in the range |
| UserValidators.PasswordValidator | src/services/user-service/internal/utils/validators.go:19-34 | accepted iff a string of 8 to 24 bytes in UTF-8 with a lower-case letter, an upper-case letter and a digit |
| UserValidators.TenDigits | src/services/user-service/internal/utils/validators_test.go:24-30 | the ten-digit number used by the tests is all digits |
| UserValidators.PhoneAccepted | src/services/user-service/internal/utils/validators_test.go:24-30 | `+1234567890` and `1234567890` are accepted |
| UserValidators.PhoneRejected | src/services/user-service/internal/utils/validators_test.go:24-30 | too short, too long, lettered, punctuated, empty and non-string values are refused |
| UserValidators.PasswordAccepted | src/services/user-service/internal/utils/validators_test.go:59-64 | `Password123` is accepted |
| UserValidators.PasswordRejectedForLength | src/services/user-service/internal/utils/validators_test.go:59-64 | 4- and 28-character passwords and non-strings are refused |
| UserValidators.PasswordNeedsUpper | src/services/user-service/internal/utils/validators_test.go:59-64 | a password without an upper-case letter is refused |
| UserValidators.PasswordNeedsLower | src/services/user-service/internal/utils/validators_test.go:59-64 | a password without a lower-case letter is refused |
| UserValidators.PasswordNeedsDigit | src/services/user-service/internal/utils/validators_test.go:59-64 | a password without a digit is refused |
| Identifier.ParseIdentifier | src/services/user-service/internal/utils/identifier.go:8-20 | a text with a hyphen is judged as a user id and one without as a login; on success the identifier is returned unchanged, flagged as a UUID exactly in the first case; on failure it is empty with the validator's message |
| Identifier.HyphenSelectsIdBranch | src/services/user-service/internal/utils/identifier_test.go:23-36 | `12345-67890` is judged as a user id and refused as an invalid UUID |
| Identifier.NoHyphenSelectsLoginBranch | src/services/user-service/internal/utils/identifier_test.go:38-50 | `john_doe` is accepted as a login |
| PostRepository.Wrap64 | src/services/post-service/internal/repository/post_repo.go:122-146 | 64-bit wrap-around: identity on the range and congruent modulo 2^64 |
| PostRepository.Where | src/services/post-service/internal/repository/post_repo.go:122-172 | exactly the rows satisfying the filter, never more rows |
| PostRepository.WhereOfAll | src/services/post-service/internal/repository/post_repo.go:122-172 | a filter every row satisfies keeps the table as it is |
| PostRepository.FindByID | src/services/post-service/internal/repository/post_repo.go:47-59 | a found post has the id and is stored; none iff no stored post has it |
| PostRepository.Insert | src/services/post-service/internal/repository/post_repo.go:122-146 | inserting one post adds exactly it to the multiset |
| PostRepository.PrependKeepsOrder | src/services/post-service/internal/repository/post_repo.go:122-146 | a post no older than every other keeps a newest-first sequence ordered |
| PostRepository.InsertKeepsOrder | src/services/post-service/internal/repository/post_repo.go:122-146 | insertion keeps a newest-first sequence ordered |
| PostRepository.SortNewestFirst | src/services/post-service/internal/repository/post_repo.go:122-146 | `ORDER BY created_at DESC`: ordered newest first and a permutation of the input |
| PostRepository.Window | src/services/post-service/internal/repository/post_repo.go:122-146 | `LIMIT`/`OFFSET`: the rows from the offset on, at most limit of them |
| PostRepository.ConsecutiveWindows | src/services/post-service/internal/repository/post_repo.go:122-146 | two consecutive pages together are one page of twice the size |
| PostRepository.WindowKeepsOrder | src/services/post-service/internal/repository/post_repo.go:122-146 | a page of an ordered sequence is ordered |
| PostRepository.Offset | src/services/post-service/internal/repository/post_repo.go:123 | `(page - 1) * pageSize` in Go's 64-bit `int`: exact when the product fits, and congruent to it modulo 2^64 always |
| PostRepository.List | src/services/post-service/internal/repository/post_repo.go:122-172 | refused iff the computed offset or the limit is negative; otherwise the total counts all matching rows and the page is the right window of them, newest first, each stored and matching |
| PostRepository.FirstPageHoldsAll | src/services/post-service/internal/repository/post_repo.go:122-146 | a first page large enough holds every matching row |
| PostRepository.TotalIgnoresPage | src/services/post-service/internal/repository/post_repo.go:122-172 | the total does not depend on the page asked for |
| PostRepository.UpdateRows | src/services/post-service/internal/repository/post_repo.go:75-92 | rows with the id take the new title, description, privacy, tags and update time and keep their id, author and creation time; others are unchanged |
| PostRepository.PostRepo.constructor | src/services/post-service/internal/repository/post_repo.go:31-33 | the table starts empty |
| PostRepository.PostRepo.CreatePost | src/services/post-service/internal/repository/post_repo.go:35-45 | the post is appended with its new id and both timestamps set to now; that id is returned |
| PostRepository.PostRepo.GetPostByID | src/services/post-service/internal/repository/post_repo.go:47-59 | found iff a stored post has the id; otherwise `ErrPostNotFound` |
| PostRepository.PostRepo.GetPostAuthorID | src/services/post-service/internal/repository/post_repo.go:61-73 | found exactly when the post is, and then its author |
| PostRepository.PostRepo.UpdatePost | src/services/post-service/internal/repository/post_repo.go:75-92 | rows with the id take the update; success iff one existed, otherwise nothing changes |
| PostRepository.PostRepo.DeletePost | src/services/post-service/internal/repository/post_repo.go:94-120 | succeeds iff the caller owns a post with the id, removing it; a missing post and a foreign post are told apart, each exactly in its own case, and change nothing |
| PostRepository.PostRepo.ListUserPosts | src/services/post-service/internal/repository/post_repo.go:122-146 | the listing of the user's posts; every post in it is the user's |
| PostRepository.PostRepo.ListPublicPosts | src/services/post-service/internal/repository/post_repo.go:148-172 | the listing of public posts; no post in it is private |
| PostService.ToProtoPost | src/services/post-service/internal/service/post_service.go:35-49 | every field is carried over to the wire message |
| PostService.HandleRepoError | src/services/post-service/internal/service/post_service.go:78-89 | no error, no status; not found and forbidden get their own codes; any other error is internal; the code is always one of those three |
| PostService.Caller | src/services/post-service/internal/service/post_service.go:92-99 | the caller is known iff the context holds a non-empty identity in UUID form; a missing identity and a malformed one are distinct errors |
| PostService.MayView | src/services/post-service/internal/service/post_service.go:143-150 | a post may be read iff it is public, or the call carries a non-empty user id equal to its author |
| PostService.CheckPostID | src/services/post-service/internal/service/post_service.go:130-136 | accepted iff the id is in UUID form; an empty id and a malformed one are distinct errors |
| PostService.UpdateRecord | src/services/post-service/internal/service/post_service.go:156-208 | the record written carries the request's fields and the caller as author |
| PostService.OffsetOfValidPage | src/services/post-service/internal/service/post_service.go:236-268 | for 32-bit pages of at least 1 the 64-bit offset does not wrap and is non-negative |
| PostService.ValidPageIsListed | src/services/post-service/internal/service/post_service.go:236-268 | a valid page is never refused by the repository |
| PostService.ToProtoPosts | src/services/post-service/internal/service/post_service.go:262-265 | the loop converts every row, in order |
| PostService.PostsService.constructor | src/services/post-service/internal/service/post_service.go:31-33 | the service holds the given repository |
| PostService.PostsService.CreatePost | src/services/post-service/internal/service/post_service.go:91-127 | refused with the caller's error, then for an empty title, storing nothing; otherwise exactly the new post is appended and returned as stored |
| PostService.PostsService.GetPost | src/services/post-service/internal/service/post_service.go:129-154 | a bad id and a missing post are refused first; a post is returned iff the caller may see it (public, or the caller's own) |
| PostService.PostsService.UpdatePost | src/services/post-service/internal/service/post_service.go:156-208 | every refusal leaves the table unchanged; success iff the caller, the id and the title are valid and the caller is the post's author, and then the stored row takes the update and is returned |
| PostService.PostsService.DeletePost | src/services/post-service/internal/service/post_service.go:210-234 | caller and id errors change nothing; otherwise the post is removed iff the caller owns it, and a missing post and a foreign post get their own errors |
| PostService.PostsService.ListMyPosts | src/services/post-service/internal/service/post_service.go:236-268 | refused with the caller's error, then for a page below 1; otherwise the caller's listing, converted row by row, with its total |
| IdentityFlow.IssuedTokenLifetime | src/services/user-service/internal/auth/jwt.go:59-68 | a token the user service issues parses under the matching key iff fewer than 180 seconds have passed, and is otherwise the expired failure |
| IdentityFlow.GatewayHonoursIssuedHeader | src/services/api-gateway/internal/auth/middleware.go:12-49 | the gateway admits a header carrying an issued token iff it has not expired, and forwards the user's id |
| IdentityFlow.GatewayHonoursIssuedToken | src/services/api-gateway/internal/auth/middleware.go:12-49 | the same for `Bearer <token>` |
| IdentityFlow.GatewayRefusesExpiredHeader | src/services/api-gateway/internal/auth/middleware.go:25-39 | an expired issued token is a 401 `Token has expired` |
| IdentityFlow.GatewayRefusesExpiredToken | src/services/api-gateway/internal/auth/middleware.go:25-39 | the same for `Bearer <token>` |
| IdentityFlow.IdentitySurvivesTheHop | src/services/api-gateway/internal/handlers/post_handlers.go:31-44 | the identity the gateway admits is the identity the post service reads from its context |
| IdentityFlow.MetadataRoundTrip | src/services/post-service/internal/auth/interceptor.go:19-50 | any non-empty id placed in the metadata by the gateway is read back unchanged by the post service |
| IdentityFlow.BearerSpacingDiffers | src/services/user-service/internal/auth/jwt.go:87-93 | with two spaces after `Bearer`, the gateway recovers the token but the user service keeps a leading space |
| IdentityFlow.GatewayTrimsEverySpace | src/services/api-gateway/internal/auth/token.go:41 | the gateway strips every space after the prefix |
| IdentityFlow.UserServiceTrimsOneSpace | src/services/user-service/internal/auth/jwt.go:87-93 | the user service strips exactly `Bearer ` and no more |
| IdentityFlow.UnreadablePageStillForwards | src/services/api-gateway/internal/handlers/post_handlers.go:254-257 | an unreadable page yields a 400 and still a forwarded request for page 0 of size 0 |
| WireFormat.Uint32 | src/services/post-service/internal/events/kafka_publisher.go:128 | `uint32(id)`: below 2^32, identity on that range, congruent modulo 2^32 |
| WireFormat.BigEndian32 | src/services/post-service/internal/events/kafka_publisher.go:128 | four bytes, most significant first |
| WireFormat.ReadBigEndian32 | src/services/post-service/internal/events/kafka_publisher.go:128 | the number four big-endian bytes denote, below 2^32 |
| WireFormat.ReadOfBigEndian32 | src/services/post-service/internal/events/kafka_publisher.go:128 | reading back the encoding of any 32-bit value gives the value |
| WireFormat.BigEndian32OfRead | src/services/post-service/internal/events/kafka_publisher.go:128 | encoding what four bytes denote gives the bytes |
| WireFormat.Frame | src/services/post-service/internal/events/kafka_publisher.go:126-129 | the frame is the payload plus five bytes: the zero magic byte, then the schema id, and the payload from byte 5 on |
| WireFormat.Decode | src/services/post-service/internal/events/kafka_publisher.go:126-129 | a frame is read iff it has at least five bytes and starts with the magic byte |
| WireFormat.DecodeOfFrame | src/services/post-service/internal/events/kafka_publisher.go:126-129 | reading a frame gives back the schema id (modulo 2^32) and the payload |
| WireFormat.FrameOfDecode | src/services/post-service/internal/events/kafka_publisher.go:126-129 | framing what was read gives back the original bytes |
| WireFormat.PutUint32 | src/services/post-service/internal/events/kafka_publisher.go:128 | `binary.BigEndian.PutUint32`: the four bytes at the offset become the encoding; all others are unchanged |
| WireFormat.BuildFrame | src/services/post-service/internal/events/kafka_publisher.go:126-129 | the array built in place is the frame of the id and payload |
| PostEvents.JsonPublisher.constructor | src/services/post-service/internal/events/kafka_publisher.go:28-32 | no writers at first |
| PostEvents.JsonPublisher.WithWriter | src/services/post-service/internal/events/kafka_publisher.go:34-37 | the writer is registered under its topic, replacing any earlier one |
| PostEvents.JsonPublisher.WriteEvents | src/services/post-service/internal/events/kafka_publisher.go:39-47 | a marshalling error is returned; otherwise the topic's writer gets the unframed payload keyed by the given key |
| PostEvents.JsonPublisher.WriteAddedComment | src/services/post-service/internal/events/kafka_publisher.go:49-51 | delivered to the `post-comments` writer, keyed by the user id |
| PostEvents.JsonPublisher.WriteLikedPost | src/services/post-service/internal/events/kafka_publisher.go:53-55 | delivered to the `post-likes` writer, keyed by the user id |
| PostEvents.JsonPublisher.WriteViewedPost | src/services/post-service/internal/events/kafka_publisher.go:57-59 | delivered to the `post-views` writer, keyed by the user id |
| PostEvents.AvroPublisher.constructor | src/services/post-service/internal/events/kafka_publisher.go:67-79 | no writers and no schema ids at first |
| PostEvents.AvroPublisher.SchemaID | src/services/post-service/internal/events/kafka_publisher.go:128 | the registered id of the topic, or 0 when none was registered |
| PostEvents.AvroPublisher.WithWriter | src/services/post-service/internal/events/kafka_publisher.go:81-92 | the writer and the registered id are recorded under the writer's topic |
| PostEvents.AvroPublisher.WithAddCommentWriter | src/services/post-service/internal/events/kafka_publisher.go:81-92 | as WithWriter, for the comments subject |
| PostEvents.AvroPublisher.WithLikePostWriter | src/services/post-service/internal/events/kafka_publisher.go:94-105 | as WithWriter, for the likes subject |
| PostEvents.AvroPublisher.WithViewPostWriter | src/services/post-service/internal/events/kafka_publisher.go:107-118 | as WithWriter, for the views subject |
| PostEvents.AvroPublisher.WriteEvent | src/services/post-service/internal/events/kafka_publisher.go:120-133 | a marshalling error is returned; otherwise the topic's writer gets the frame of the topic's schema id and the payload, keyed as given, and the frame reads back to both |
| PostEvents.AvroPublisher.WriteAddedComment | src/services/post-service/internal/events/kafka_publisher.go:135-137 | framed for `post-comments`, keyed by the user id |
| PostEvents.AvroPublisher.WriteLikedPost | src/services/post-service/internal/events/kafka_publisher.go:139-141 | framed for `post-likes`, keyed by the user id |
| PostEvents.AvroPublisher.WriteViewedPost | src/services/post-service/internal/events/kafka_publisher.go:143-145 | framed for `post-views`, keyed by the user id |
| PostEvents.UnregisteredTopicUsesSchemaZero | src/services/post-service/internal/events/kafka_publisher.go:128 | a topic never registered is framed with id 0 and reads back as id 0 |
| UserEvents.JsonPublisher.constructor | src/services/user-service/internal/events/kafka_publisher.go:23-30 | one writer for `user-registrations` on the given brokers |
| UserEvents.JsonPublisher.WriteUserRegistered | src/services/user-service/internal/events/kafka_publisher.go:32-40 | a marshalling error is returned; otherwise the payload, unframed, keyed by the user id |
| UserEvents.AvroPublisher.constructor | src/services/user-service/internal/events/kafka_publisher.go:48-66 | one writer for `user-registrations` on the broker taken from the environment (the brokers argument is ignored), with the registered schema id |
| UserEvents.AvroPublisher.WriteUserRegistered | src/services/user-service/internal/events/kafka_publisher.go:68-81 | a marshalling error is returned; otherwise the frame of the schema id and payload, keyed by the user id, reading back to both |

## Left out

- Key and crypto handling: `InitJWT`, PEM parsing and RSA itself. A signature is valid when the token's signer is the configured key, and tokens are decoded by a parameter. The signing-error branch of `GenerateToken` is not modelled.
- UserAuth.JwtAuth.GenerateToken: `time.Now` is read twice in the source. The model uses one `now`, so `exp` is exactly 180 seconds after `iat`.
- UserAuth.JwtAuth.JWTAuthMiddleware: the `Invalid token claims` branch (jwt.go:130-134) is not modelled. `jwt.Parse` always yields map claims, so that branch cannot be reached.
- UserAuth.JwtAuth.DeleteSession and UserService.AccountService.Logout require a session repository. The source dereferences the unset package variable, which would panic.
- UserAuth.JwtAuth.JWTAuthMiddleware requires a session repository only for a present header whose token parses, the one path on which the source dereferences it (jwt.go:119).
- JwtLib.Parse: the library's version is not pinned by the repository. The model follows golang-jwt v5, which verifies the signature before it validates the claims, reports both claim errors joined by a newline, and checks `iat` only on request.
- JwtLib.Parse: a claims object whose fields have the wrong JSON types is folded into the malformed case with its detail. The detail texts of the base64 and JSON decoders are a free string.
- SessionRepository.FindByToken, SessionRepository.LookupFindsOldestSession: the lookup query has no `ORDER BY`, so among rows with the same token the store may return any. Duplicates can occur, because the same user logging in twice within one second gets the same deterministic RS256 token. The model takes the first such row. `UniqueTokenFindsItsRow` shows the order does not matter when tokens are unique.
- UserRepository.FindByLogin, UserRepository.FindByID: the queries have no `ORDER BY` either. Among several rows with the same login or id the model takes the first, where the store may return any.
- bcrypt, `net.ParseIP`, and the user service's `ValidateUserID` and `ValidateLogin`: these are supplied by the caller as functions.
- `uuid.Parse`: only the canonical 8-4-4-4-12 hexadecimal form is accepted. The `urn:uuid:`, braced and 32-digit forms are not modelled.
- SQL and the database: the model holds tables in memory, with no uniqueness constraints.
  - The in-memory tables never fail, so the database-error branches of the repositories and services are not reached.
  - Creation times come from the caller's `now`.
  - Rows with equal `created_at` stay in insertion order.
- The post service's `utils` package is not part of this model. The service layer uses the gateway validators of the same names.
- Post-service repo.GetUserPosts: post_service.go calls it, but it is not in post_repo.go. It is modelled as `ListUserPosts`, which has the same shape.
- The post service's `ListPublicPosts` (post_service.go:270-295) calls `GetPublicPosts`, which has no definition here, so it is left out. So are `ViewPost`, `LikePost`, the comment and reply operations, `ToProtoComment` and `ToProtoReply` (post_service.go:51-76, 297-502).
- PostService.ToProtoPost: the `nil` case is not modelled, because a post value is always present.
- UserService.AccountService.CreateUser: the registration event (at most three write attempts, whose outcome is ignored) is not modelled. `userID` is the id the store returns from the INSERT (user_repo.go:27-33), which leaves out the id column and overwrites the `uuid.NewString()` value; it is supplied by the caller. The token-signing failure branch is not reached.
- `GetUserByID` and `GetUserByLogin` in the user service pass straight through to `UserRepo.GetByID` and `UserRepo.GetByLogin`, so they have no model of their own.
- Session.IPAddress is kept as the text that was validated. In the source a `net.IP` is stored.
- Kafka I/O is not modelled: `WriteMessages`, asynchronous delivery, connection errors and the JSON and Avro marshalling of the generated event types. An event is represented by its key (`UserID`) and its marshalling outcome. A delivery is the writer and message a call hands to Kafka.
- The schema registry is not modelled. `NewClient` and `CreateSchema` are not modelled, and neither is the `log.Fatalf` on a registration failure. The registered id is a parameter.
- PostEvents.JsonPublisher.WriteEvents, PostEvents.AvroPublisher.WriteEvent and the six per-topic writers PostEvents.JsonPublisher.WriteAddedComment, PostEvents.JsonPublisher.WriteLikedPost, PostEvents.JsonPublisher.WriteViewedPost, PostEvents.AvroPublisher.WriteAddedComment, PostEvents.AvroPublisher.WriteLikedPost and PostEvents.AvroPublisher.WriteViewedPost require a writer for the topic. The source dereferences a missing (nil) writer, which would panic.
- Gin and gRPC plumbing are not modelled: request binding (modelled as a `Result`), context propagation, logging, the user-service HTTP handlers and the server setup.
- Status codes: gRPC code names are a datatype, and HTTP statuses are integers.

## Findings

| source | as written | input that shows it | evidently intended | confidence | as-written member | corrected member |
|---|---|---|---|---|---|---|
| src/services/api-gateway/internal/handlers/post_handlers.go:254-257 | after `parsePagination` fails, the handler writes a 400 and does not return, so it still calls the post service with page 0 and size 0 | `GET /users/u1/posts?page=abc`, with an authenticated user | answer 400 and stop, as `GetMyPosts` and `GetAllPublicPosts` do | high (not executed) | IdentityFlow.UnreadablePageStillForwards | PostHandlers.GetUserPublicPostsIntended |

The gateway's `ValidatePageSize` returns `ErrInvalidPage` for a bad page size (validators.go:42). The model keeps this as written. The page-size error value is defined but never returned.

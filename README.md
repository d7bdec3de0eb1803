# user-service core, modelled in Dafny

This project models the core of a small Go user-management service. The service
keeps user records in a MongoDB collection. It offers create, update by id, soft
delete by id, and filtered, paginated listing. The layers are:

- **errwrap**: immutable typed errors `(message, code, httpCode)` with copy-on-write
  setters, and four base errors.
- **model**: the user record, its metadata, and the sparse `UserFilter` with its
  translation `ToBson` into a document filter.
- **repository**: create, update, delete, get and list over the collection. It
  also holds the uniqueness pre-check and the field allow-lists for updates and
  deletes.
- **service**: password hashing before create, clearing the payload id on update,
  and the pagination envelope.
- **handlers**: the typed request validators, the typed handlers that return
  `(response, status, error)`, the generic `Serve` adapter with its error mapping,
  and the older context-based handlers that answer with one `(status, body)` write.

Files, one module each:

- `text.dfy`: `strings.Join` and `strconv.Itoa`.
- `errwrap.dfy`
- `errors.dfy`: the Go `error` union, plus `Option` and `Result`.
- `model.dfy`
- `store.dfy`: an in-memory stand-in for the MongoDB collection.
- `repository.dfy`
- `service.dfy`
- `handler_user.dfy`: internal/handler/user.
- `handler.dfy`: internal/handler.

Code that updates state in place is modelled as classes:

- `ErrorWrapper`, `UserRef` (a `*model.User`), `Collection`, `UserRepository`,
  `UserService`, the two `UserHandler`s, and the fiber context in `Serve`.

Each such method is tied by its `ensures` to a pure specification function of
the prior state: `CreateSpec`, `UpdateSpec`, `DeleteSpec`, `ListSpec`,
`CreateUserSpec`, `ListUsersSpec`, `ServeSpec` and the `…Reply` functions. The
lemmas prove what those functions mean.

Things the service takes from outside are parameters:

- the bcrypt hash (a function that may answer "too long" or fail otherwise);
- the new UUID;
- the current time;
- the outcome of each JSON or parameter parser;
- the failures the database server reports. `Snapshot.failing` names, for each
  driver call, the error that call reports, so every error branch is reachable.

## Model

| member | source | states |
|---|---|---|
| `Text.Join` | internal/handler/user/validation.go:24-27 | no parts give "", one part is itself, and the joined text begins with the first part |
| `Text.JoinAppend` | internal/handler/user/validation.go:24-27 | joining two non-empty lists is joining each and putting one separator between them, so the parts appear in order with the separator between neighbours |
| `Text.Itoa` | internal/service/user.go:54 | the rendering is non-empty decimal digits (after a "-" for negatives) that read back as the number, with no leading zero except for 0 itself |
| `Text.ItoaInjective` | internal/service/user.go:54 | distinct status numbers get distinct code strings |
| `ErrWrap.TypedError.SetMessage` | pkg/lib/errwrap/err_model.go:31-35 | the result has the new message and the receiver's code and httpCode |
| `ErrWrap.TypedError.SetHttpCode` | pkg/lib/errwrap/err_model.go:37-41 | only httpCode changes; message and code are kept |
| `ErrWrap.TypedError.ErrorResp` | pkg/lib/errwrap/err_model.go:47-52 | the response is exactly (code, message); httpCode is not in it |
| `ErrWrap.TypedError.Error` | pkg/lib/errwrap/err_model.go:54-56 | the text is the message, then " code:", then the code, and nothing else |
| `ErrWrap.NewError` | pkg/lib/errwrap/err_model.go:24-29 | a new error has the given message and code and httpCode 0 |
| `ErrWrap.SetMessageLastWins` | pkg/lib/errwrap/err_model.go:31-35 | `SetMessage(a).SetMessage(b)` equals `SetMessage(b)` |
| `ErrWrap.SettersCommute` | pkg/lib/errwrap/err_model.go:31-41 | setting the message and the status in either order gives the same error |
| `ErrWrap.ErrorRespIgnoresHttpCode` | pkg/lib/errwrap/err_model.go:37-52 | changing the transport status never changes the response body |
| `ErrWrap.ErrorWrapper.constructor` | pkg/lib/errwrap/err_model.go:24-29 | a freshly allocated wrapper denotes `NewError(msg, code)` |
| `ErrWrap.ErrorWrapper.Clone` | pkg/lib/errwrap/err_model.go:58-67 | nil clones to nil; otherwise the result is a fresh object with equal contents |
| `ErrWrap.ErrorWrapper.SetMessage` | pkg/lib/errwrap/err_model.go:31-35 | the result is a fresh object with the message replaced, and the receiver is unchanged |
| `ErrWrap.ErrorWrapper.SetHttpCode` | pkg/lib/errwrap/err_model.go:37-41 | the result is a fresh object with the status replaced, and the receiver is unchanged |
| `ErrWrap.BaseErrors` | pkg/lib/errwrap/errors.go:6-9 | the four triples ("invalid argument","400",400) through ("internal server error","500",500); each code is `Itoa` of its status |
| `ErrWrap.BadRequestWithMessage` | internal/service/user.go:54 | `ErrBadRequest.SetMessage(m)` equals `NewError(m, Itoa(400)).SetHttpCode(400)` |
| `Model.Wrap64` | internal/service/user.go:107 | in-range values are kept, and the result is congruent to the input modulo 2^64 |
| `Model.Meta.Update` | internal/model/meta.go:20-22 | updatedAt becomes now; createdAt and version are kept |
| `Model.NewMeta` | internal/model/meta.go:11-18 | createdAt and updatedAt are the same instant, and version is 0 |
| `Model.MetaUpdateLastWins` | internal/model/meta.go:20-22 | touching twice equals touching once at the later instant |
| `Model.FilterQuery` | internal/model/user.go:39-70 | the keys are a subset of the seven filter keys. id, nickName, email and country appear, as exact matches, iff given. Names appear iff given, as `^value` with option "i". Status 0 gives Active, a positive status is kept, a negative one gives no key |
| `Model.ToBson` | internal/model/user.go:39-70 | building the map one `if` at a time yields exactly `FilterQuery(f)` |
| `Model.EmptyFilterQuery` | internal/model/user.go:41-69 | the all-empty filter is exactly `{status: Active}` |
| `Model.FilterQueryMeaning` | internal/model/user.go:43-67 | a document matches the translated filter iff `Accepts` holds, the field-by-field meaning of the filter |
| `Model.DefaultStatusVisibility` | internal/model/user.go:63-67 | with status 0 only active users match; with status 2 only inactive ones |
| `Model.ApplySet` | internal/repository/user.go:104 | `$set` writes each given settable key, keeps every key not given, and never changes `_id` |
| `Store.MatchingNonEmpty` | internal/repository/user.go:204-209 | a query selects something iff some listed, stored document satisfies it |
| `Store.SelectedFromCollection` | internal/repository/user.go:204-209 | over a well-formed collection, the match is non-empty iff some stored document satisfies the query |
| `Store.Window` | internal/repository/user.go:130-138 | skip then limit: element i is document skip+i; limit 0 means no limit; otherwise at most \|limit\| documents |
| `Store.Projected` | internal/repository/user.go:89-91 | the projection clears the password and nothing else |
| `Store.ProjectedAll` | internal/repository/user.go:133-135 | every document of the page is projected, in order |
| `Store.SetAndInc` | internal/repository/user.go:104 | the document after `$set`, with only the version raised by the increment |
| `Store.InsertPreservesWellFormed` | internal/repository/user.go:68 | a successful insert keeps ids unique, documents under their own id and the unique indexes; the new id goes last |
| `Store.InsertDuplicateMeaning` | internal/repository/user.go:68-69 | with the server answering, an insert is a duplicate-key error iff the id is taken or another document has the email or nickName |
| `Store.UpdatePreservesWellFormed` | internal/repository/user.go:102-105 | find-and-update keeps the collection well formed, unique indexes included |
| `Store.Collection.CountDocuments` | internal/repository/user.go:124 | the count is of the matching documents, between 0 and the collection size, or the server's error |
| `Store.Collection.Find` | internal/repository/user.go:130-138 | the page of matching documents; at most \|limit\| of them when limit is not 0, each without a password when projected |
| `Store.Collection.InsertOne` | internal/repository/user.go:68 | reports the configured server error, or a duplicate key when the id, email or nickName is taken, and then changes nothing; otherwise stores the document last |
| `Store.Collection.FindOneAndUpdate` | internal/repository/user.go:102-105 | applies `$set`/`$inc` to the document under the id and returns it after the update, or leaves the collection unchanged |
| `Store.Collection.FindOne` | internal/repository/user.go:182 | the stored document under the id, or the raw no-documents error |
| `Repository.SanitizeForUpdate` | internal/repository/user.go:216-227 | the update carries exactly firstName, lastName, nickName, password, email, country and updatedAt, with the payload's values |
| `Repository.SanitizeForDelete` | internal/repository/user.go:230-235 | the delete carries exactly status Inactive and updatedAt now |
| `Repository.CreateSucceeds` | internal/repository/user.go:64-76 | on success: the new id, status Active, meta (now, now, 0) and an emptied password for the caller; the stamped record with its hash is stored last; the collection stays well formed |
| `Repository.CreateConflict` | internal/repository/user.go:68-72 | with the server answering, a create is a Conflict "already exists with the same nickname or email" iff the id is taken or another user shares email or nickName; then nothing is stored and the password is not cleared |
| `Repository.SecondCreateWithSameEmailConflicts` | internal/repository/user.go:64-72 | after a successful create, a second create with the same email is a Conflict and changes nothing |
| `Repository.CreatePassesDriverErrors` | internal/repository/user.go:68-76 | any other insert failure is returned unchanged; nothing is stored and the password is still cleared |
| `Repository.UniquenessMeaning` | internal/repository/user.go:194-213 | with the count answering, the check fails iff another document has the nickName or email, and its error is the untyped "unique constraint violated" |
| `Repository.UniquenessSelects` | internal/repository/user.go:196-202 | the pre-check filter selects a document iff its id differs and it shares the nickName or the email |
| `Repository.SanitizedWrite` | internal/repository/user.go:93-104 | writing the touched, sanitized payload sets the six fields and updatedAt, adds 1 to version, and keeps id, status and createdAt |
| `Repository.UpdateRejectedWritesNothing` | internal/repository/user.go:81-84 | a failing pre-check is returned as is and nothing is written |
| `Repository.UpdateSucceeds` | internal/repository/user.go:80-117 | after the pre-check, the stored record is rewritten, version raised by 1, and returned without its password; the order is kept and the collection stays well formed |
| `Repository.UpdateTouchesOnlyAllowListed` | internal/repository/user.go:93-105 | whatever the outcome, `_id`, status, createdAt and every other non-listed field of the stored record are unchanged |
| `Repository.UpdateMissingIsNoDocuments` | internal/repository/user.go:107-109 | an update of a missing id is the driver's raw no-documents error, not NotFound, and writes nothing |
| `Repository.UpdateIgnoresPayloadId` | internal/service/user.go:79-80 | the payload's own id plays no part in the check, the write or the result |
| `Repository.DeleteMeaning` | internal/repository/user.go:156-177 | a stored user becomes Inactive with updatedAt now, whatever its status, and nothing else changes; a missing id is the raw no-documents error |
| `Repository.DeleteWrite` | internal/repository/user.go:230-235 | the delete write changes status and updatedAt only, and leaves the version alone |
| `Repository.DeleteIdempotent` | internal/repository/user.go:164-170 | deleting again later succeeds, with the same outcome as one delete at the later time |
| `Repository.ListMeaning` | internal/repository/user.go:120-153 | the total counts every match; the page is the matches from offset on, exactly min(limit, matches − offset) of them for a positive limit (all remaining when limit is 0), without passwords, and each satisfies the filter |
| `Repository.ListErrors` | internal/repository/user.go:124-144 | a count error is returned as is; a no-documents find becomes NotFound "user record not found"; other find errors and a negative skip pass through |
| `Repository.UserRepository.constructor` | internal/repository/user.go:23-30 | the repository works on the given collection |
| `Repository.UserRepository.Create` | internal/repository/user.go:64-77 | error, collection and caller's record afterwards are exactly `CreateSpec` of the prior state |
| `Repository.UserRepository.CheckUniqueness` | internal/repository/user.go:194-213 | the error is exactly `UniquenessError` of the current state |
| `Repository.UserRepository.Update` | internal/repository/user.go:80-117 | result, collection and caller's record afterwards are exactly `UpdateSpec` of the prior state |
| `Repository.UserRepository.ListByFilter` | internal/repository/user.go:120-153 | the result is exactly `ListSpec` of the current state |
| `Repository.UserRepository.Delete` | internal/repository/user.go:156-177 | error and collection afterwards are exactly `DeleteSpec` of the prior state |
| `Repository.UserRepository.Get` | internal/repository/user.go:180-192 | the configured driver error if any; otherwise success iff the id is stored, returning the stored record; a missing id is the raw no-documents error |
| `Service.HashFailureError` | internal/service/user.go:46-55 | too long gives ("password is too long","400",400); any other failure gives ("unexpected error","500",500) |
| `Service.TooLongIsBadRequest` | internal/service/user.go:50-54 | those are the base BadRequest and Internal errors with only their message replaced |
| `Service.CreateUserHashFailure` | internal/service/user.go:46-55 | a failed hash leaves both the collection and the caller's record untouched |
| `Service.CreateUserStoresHash` | internal/service/user.go:57-64 | on success the stored record holds the hash, never the plain password, and the caller gets the stamped record with an empty password |
| `Service.CreateUserPassesRepositoryErrors` | internal/service/user.go:58-62 | once the hash succeeds, the repository's error is returned unchanged |
| `Service.PaginationMeaning` | internal/service/user.go:107-118 | the envelope echoes total, limit, offset and items; hasPrevious iff offset > 0; without overflow, hasNext iff offset+limit < total |
| `Service.PaginationExamples` | internal/service/user.go:107-108 | (total 2, limit 10, offset 0) gives no next or previous page; (100, 10, 2) gives both |
| `Service.PaginationWrapsAround` | internal/service/user.go:107 | at offset MaxInt64, `offset+limit` wraps in 64 bits and a next page is announced |
| `Service.ListUsersMeaning` | internal/service/user.go:97-121 | with a positive limit and no 64-bit overflow: total counts accepted users; the page holds exactly min(limit, total − offset) accepted users (none past the end), without passwords; hasNext iff accepted users remain after the page |
| `Service.ListUsersLimitZero` | internal/service/user.go:97-121 | limit 0 puts every accepted user on one page, yet announces a next page whenever there is any user |
| `Service.UserService.constructor` | internal/service/user.go:30-32 | the service works on the given repository |
| `Service.UserService.CreateUser` | internal/service/user.go:45-65 | outcome equals `CreateUserSpec` over the hash of the caller's password; the result is the caller's own record on success and nil otherwise |
| `Service.UserService.UpdateUserById` | internal/service/user.go:78-87 | outcome equals `UpdateSpec` for the payload with its id cleared, and also for the payload as given |
| `Service.UserService.DeleteUserById` | internal/service/user.go:92-94 | error and collection equal the repository's `DeleteSpec` |
| `Service.UserService.ListUsers` | internal/service/user.go:97-121 | the result is exactly `ListUsersSpec` of the current state |
| `HandlerUser.ViolationsEmpty` | internal/handler/user/validation.go:9-30 | no message is collected iff no rule is violated |
| `HandlerUser.ViolationsMembers` | internal/handler/user/validation.go:10-22 | a message is collected iff a rule carrying it is violated |
| `HandlerUser.ValidationErrorShape` | internal/handler/user/validation.go:24-27 | no error iff no messages; otherwise the error is ("joined messages", "400", 400) |
| `HandlerUser.CreateValidation` | internal/handler/user/validation.go:9-30 | a create request is valid iff firstName, email, nickName and country are all non-empty |
| `HandlerUser.CreateValidationMessages` | internal/handler/user/validation.go:11-26 | an empty request gives the four messages joined by ";;" in field order; missing only email gives exactly "email can't be empty" |
| `HandlerUser.IdValidation` | internal/handler/user/validation.go:32-44 | an id request fails iff the id is empty, with exactly "id can't be empty" |
| `HandlerUser.ListValidation` | internal/handler/user/validation.go:46-66 | a list request is valid iff limit ≥ 0, offset ≥ 0 and a filter is given (limit 0 is no violation); all three wrong gives the three messages in order |
| `HandlerUser.CreateUserRequest.Validate` | internal/handler/user/validation.go:9-30 | appending one message per violated rule yields `ValidationError(Violations(CreateRules(u)))` |
| `HandlerUser.UpdateUserByIdRequest.Validate` | internal/handler/user/validation.go:32-44 | the error is that of the id rule |
| `HandlerUser.ListUsersByFilterRequest.Validate` | internal/handler/user/validation.go:46-66 | the error is that of the list rules; the limit default is applied to the validator's own copy only |
| `HandlerUser.DeleteUserByIdRequest.Validate` | internal/handler/user/validation.go:68-80 | the error is that of the id rule |
| `HandlerUser.ZeroLimitListsEverything` | internal/handler/user/validation.go:48-50 | limit 0 passes validation and reaches the service as 0, which puts every accepted user on one page |
| `HandlerUser.UserHandler.constructor` | internal/handler/user/user_handler.go:24-26 | the handler works on the given service |
| `HandlerUser.UserHandler.CreateUser` | internal/handler/user/user_handler.go:38-45 | success gives (response with the created record, 201, nil); any service error gives (nil, 0, that error unchanged) |
| `HandlerUser.UserHandler.UpdateUserById` | internal/handler/user/user_handler.go:55-61 | forwards the request id and record; success gives (updated record, 200, nil); otherwise (nil, 0, the error) |
| `HandlerUser.UserHandler.ListUsers` | internal/handler/user/user_handler.go:72-79 | forwards filter, limit and offset; success gives (the pagination, 200, nil); otherwise (nil, 0, the error) |
| `HandlerUser.UserHandler.DeleteUserById` | internal/handler/user/user_handler.go:88-94 | success gives (empty response, 200, nil); otherwise (nil, 0, the error) |
| `Handler.ErrorRespWithMapping` | internal/handler/handler.go:69-75 | a typed error keeps its status and its text "message code:X"; any other error is 500 with its raw text |
| `Handler.BaseErrorMappings` | internal/handler/handler.go:69-75 | the four base errors map to (400,"invalid argument code:400") through (500,"internal server error code:500") |
| `Handler.Decode` | internal/handler/handler.go:26-37 | a body error other than unprocessable-entity stops decoding; unprocessable-entity leaves the request as it was for the path and query parsers |
| `Handler.DecodeFailsAtFirstFailure` | internal/handler/handler.go:27-37 | decoding fails iff one of the three parsers fails, and with the first failure in body, params, query order |
| `Handler.ServeParseFailure` | internal/handler/handler.go:27-37 | a parser error is returned unchanged, whatever the validator and the business function are |
| `Handler.ServeValidationFailure` | internal/handler/handler.go:39-41 | a validation error becomes a 400 carrying its `Error()` text, whatever the business function is |
| `Handler.ServeCallsHandler` | internal/handler/handler.go:43-51 | a valid decoded request gets the business function's status and response, or its error mapped |
| `Handler.ServeEmptyCreateRequest` | internal/handler/handler.go:39-41 | serving an empty create request gives 400 with the four messages and " code:400" |
| `Handler.FiberCtx.constructor` | internal/handler/handler.go:50 | a fresh context has status 200 and nothing written |
| `Handler.Serve` | internal/handler/handler.go:24-53 | writes the status and payload exactly when `ServeSpec` succeeds; otherwise returns its error and writes nothing |
| `Handler.SuccessResp` | internal/handler/handler.go:56-61 | nil data is answered with an empty object, never null, under the given status |
| `Handler.ErrorResp` | internal/handler/handler.go:64-66 | the body is the error's (code, message) under the given status, whatever its own httpCode |
| `Handler.ErrorReply` | internal/handler/user.go:69-75 | a typed error is `errorResp(its httpCode, it)`; any other error is 500 with ("internal server error","500"), whatever its text |
| `Handler.BadRequestReply` | internal/handler/user.go:57 | the base bad request with a replaced message is 400 with code "400" and that message |
| `Handler.QueryInt` | internal/handler/user.go:106-107 | a query value that is absent or not an integer gives the default; otherwise the value itself |
| `Handler.UpdateUserByIdReplies` | internal/handler/user.go:53-78 | a decode failure answers 400 with the decoder's message before the id is checked; an empty id answers "Please provide id in endpoint"; neither touches the collection; with the server answering, a missing record is answered 500 |
| `Handler.DeleteUserByIdReplies` | internal/handler/user.go:80-96 | with the server answering: an empty id answers 400 "id not provided"; a stored user is soft deleted and answered 200 `{}`; a missing one is answered 500 |
| `Handler.ListUsersDefaults` | internal/handler/user.go:98-119 | without query values, the page has limit 20 and offset 0, no previous page, and at most 20 accepted users |
| `Handler.CreateUserRequest.Validate` | internal/handler/user_new_handler.go:29-50 | the same error as the typed create validator: four rules, fixed order, joined by ";;" |
| `Handler.UserHandler.constructor` | internal/handler/user.go:25-27 | the handler works on the given service |
| `Handler.UserHandler.CreateUserCpy` | internal/handler/user_new_handler.go:20-27 | success gives (created record, 201, nil); a service error gives (nil, 0, the error unchanged) |
| `Handler.UserHandler.UpdateUserById` | internal/handler/user.go:53-78 | the reply and the collection afterwards are `UpdateUserByIdReply` of the prior state |
| `Handler.UserHandler.DeleteUserById` | internal/handler/user.go:80-96 | the reply and the collection afterwards are `DeleteUserByIdReply` of the prior state |
| `Handler.UserHandler.ListUsers` | internal/handler/user.go:98-119 | the reply is exactly `ListUsersReply` of the current state |

## Left out

- MongoDB connection, driver wrappers and server behaviour are network I/O. They are replaced by `Store.Collection`. Server error texts are placeholders (`DuplicateKeyText`, `NegativeSkipText`), and cursor decoding never fails.
- Index creation (internal/repository/user.go:33-61) is I/O with a timeout. Only the unique indexes it establishes on email and nickName are modelled, as part of `Store.WellFormed`.
- Servers, routing, wiring, process setup, health checks, logging (`slog` calls), the HTTP middleware and the generated mocks are not part of this model.
- bcrypt, UUID generation and `time.Now().UTC()` are parameters. What bcrypt computes, and the 72-byte bound behind "too long", are not modelled.
- JSON encoding and decoding, and fiber's body, path and query parsers, are parameters. A parser's outcome is an input, and a JSON write is the (status, payload) pair it sends.
- `Model.FilterQueryMeaning`: `$regex` is modelled only for the anchored `^text` patterns the filter builds. Matching is a prefix test, case-insensitive for ASCII letters only. Regex metacharacters inside the filter text are taken literally.
- `Model.Meta`: the version is an unbounded integer. Go's `int32` wrap-around after 2^31-1 updates is not modelled.
- The race between the uniqueness pre-check and `FindOneAndUpdate` is not modelled, because calls run one at a time here. The atomic step's own index check is modelled, as a duplicate-key error.
- The request context and its cancellation (`c.UserContext()`, `ctx` arguments) are not modelled.
- `Store.Collection.InsertOne` requires a non-empty id. With an empty `_id`, the `omitempty` tag would let the server generate an ObjectId, which the model does not represent. `Create` always sets a fresh UUID first.
- `HandlerUser.UserHandler.ListUsers` requires a filter. The code dereferences `*req.UserFilter`, which panics on nil; under `Serve`, the validator rejects a nil filter before the call.
- `HandlerUser.UserHandler.UpdateUserById` and the create handlers take a non-nil record. The embedded `*model.User` is a non-null reference here, so the nil-pointer panic is not modelled.
- `CreateUser` of internal/handler/user.go is not modelled. It decodes into a nil `*model.User` pointer (internal/handler/user.go:30-31), so it never handles a request as written.
- `Pagination.totalRecords` and the count are unbounded integers rather than `int64`.

## Code and documentation

The model follows the code where the service's documented design says otherwise:

- An untyped business error reaches the client through `Serve` as a 500 carrying its raw text, not the generic internal body (`Handler.ErrorRespWithMapping`). The older handlers do answer with the generic body (`Handler.ErrorReply`).
- The update allow-list writes `password` and not `status` (`Repository.SanitizeForUpdate`).
- The uniqueness pre-check fails with the untyped "unique constraint violated", not a Conflict (`Repository.UniquenessMeaning`).
- Update and delete of a missing id return the driver's raw no-documents error, not NotFound (`Repository.UpdateMissingIsNoDocuments`, `Repository.DeleteMeaning`). Other driver errors of create pass through unwrapped.
- On a Conflict, `Create` returns before clearing the caller's password (`Repository.CreateConflict`).
- A negative filter status is not rejected by validation. The translator just omits the status key (`Model.FilterQuery`).
- `Serve` writes the handler's response as is, so a nil response would be `null`. Only `successResp` substitutes `{}` (`Handler.SuccessResp`).

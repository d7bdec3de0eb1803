/**
 * internal/handler: the generic `Serve` adapter that turns a typed handler into a
 * fiber handler, its error mapping and response helpers, and the older
 * context-based `userHandler` of internal/handler/user.go, whose every outcome is
 * one JSON write (status, body).
 *
 * Fiber's body, path and query parsers are parameters: functions from the
 * request filled so far to what the parser answers.  JSON encoding and the
 * actual HTTP write are not part of this model; a write is the pair it sends.
 */
module Handler {
  import opened Errors
  import opened ErrWrap
  import opened Model
  import opened Store
  import opened Repository
  import opened Service
  import HandlerUser
  import Text

  /** What `c.BodyParser(&req)` answers: the request filled, fiber's `ErrUnprocessableEntity`, or another error. */
  datatype BodyParse<I> = BodyFilled(req: I) | BodyUnprocessable | BodyFailed(error: Error)

  /** What `c.ParamsParser(&req)` and `c.QueryParser(&req)` answer. */
  datatype Parse<I> = Filled(req: I) | ParseFailed(error: Error)

  /** What a `HandlerFunc` returns: the response (nil as `None`), the success status and the error. */
  datatype HandlerResult<O> = HandlerResult(resp: Option<O>, status: int, err: Option<Error>)

  /** The error a fiber handler returns: one passed through as it came, or a `*fiber.Error`. */
  datatype HandlerError = Passed(error: Error) | FiberError(code: int, message: string)

  /** What one call of the served handler does: write a status and a JSON payload, or return an error. */
  datatype Served<O> = Written(status: int, resp: Option<O>) | Failed(error: HandlerError)

  /**
   * `errorRespWithMapping`: a typed error keeps its own transport status and its
   * `Error()` text; any other error becomes a 500 carrying its raw text.
   */
  function ErrorRespWithMapping(e: Error): (r: HandlerError)
    ensures r.FiberError?
    ensures e.Typed? ==> r.code == e.typed.httpCode && r.message == e.typed.message + " code:" + e.typed.code
    ensures !e.Typed? ==> r.code == StatusInternalServerError && r.message == e.ErrorText()
  {
    if e.Typed? then FiberError(e.typed.HttpCode(), e.typed.Error())
    else FiberError(StatusInternalServerError, e.ErrorText())
  }

  /** Every base error maps to its own status, with " code:" and its code after the message. */
  lemma BaseErrorMappings()
    ensures ErrorRespWithMapping(Typed(ErrBadRequest)) == FiberError(400, "invalid argument code:400")
    ensures ErrorRespWithMapping(Typed(ErrNotFound)) == FiberError(404, "resource not found code:404")
    ensures ErrorRespWithMapping(Typed(ErrConflict)) == FiberError(409, "already exists code:409")
    ensures ErrorRespWithMapping(Typed(ErrInternal)) == FiberError(500, "internal server error code:500")
  {
    BaseErrors();
    assert "invalid argument" + " code:" + "400" == "invalid argument code:400";
    assert "resource not found" + " code:" + "404" == "resource not found code:404";
    assert "already exists" + " code:" + "409" == "already exists code:409";
    assert "internal server error" + " code:" + "500" == "internal server error code:500";
  }

  /**
   * The request the three parsers produce, in their order: a body error other
   * than "unprocessable entity" stops at once; "unprocessable entity" leaves the
   * request as it was; then the path parameters, then the query.
   */
  function Decode<I>(zero: I, body: I -> BodyParse<I>, params: I -> Parse<I>, query: I -> Parse<I>): (r: Parse<I>)
    ensures body(zero).BodyFailed? ==> r == ParseFailed(body(zero).error)
    ensures body(zero).BodyUnprocessable? ==>
      r == if params(zero).ParseFailed? then params(zero) else query(params(zero).req)
  {
    var b := body(zero);
    if b.BodyFailed? then ParseFailed(b.error)
    else
      var afterBody := if b.BodyFilled? then b.req else zero;
      var p := params(afterBody);
      if p.ParseFailed? then p
      else query(p.req)
  }

  /** The decoded request fails exactly when one of the parsers fails, and with the first failure. */
  lemma DecodeFailsAtFirstFailure<I>(zero: I, body: I -> BodyParse<I>, params: I -> Parse<I>, query: I -> Parse<I>)
    ensures var afterBody := if body(zero).BodyFilled? then body(zero).req else zero;
      && (Decode(zero, body, params, query).ParseFailed? <==>
           || body(zero).BodyFailed?
           || params(afterBody).ParseFailed?
           || query(params(afterBody).req).ParseFailed?)
      && (!body(zero).BodyFailed? && params(afterBody).ParseFailed? ==>
           Decode(zero, body, params, query) == params(afterBody))
      && (!body(zero).BodyFailed? && params(afterBody).Filled? ==>
           Decode(zero, body, params, query) == query(params(afterBody).req))
  {
  }

  /** The outcome of serving one request, as `Serve`'s closure computes it. */
  function ServeSpec<I, O>(zero: I, body: I -> BodyParse<I>, params: I -> Parse<I>, query: I -> Parse<I>,
                           validate: I -> Option<Error>, h: I -> HandlerResult<O>): Served<O>
  {
    match Decode(zero, body, params, query)
    case ParseFailed(e) => Failed(Passed(e))
    case Filled(req) =>
      if validate(req).Some? then Failed(FiberError(StatusBadRequest, validate(req).value.ErrorText()))
      else
        var res := h(req);
        if res.err.Some? then Failed(ErrorRespWithMapping(res.err.value))
        else Written(res.status, res.resp)
  }

  /** A parser error is returned as it came, and neither the validator nor the handler plays any part. */
  lemma ServeParseFailure<I, O>(zero: I, body: I -> BodyParse<I>, params: I -> Parse<I>, query: I -> Parse<I>,
                                validate: I -> Option<Error>, h: I -> HandlerResult<O>,
                                validate': I -> Option<Error>, h': I -> HandlerResult<O>)
    requires Decode(zero, body, params, query).ParseFailed?
    ensures ServeSpec(zero, body, params, query, validate, h) == Failed(Passed(Decode(zero, body, params, query).error))
    ensures ServeSpec(zero, body, params, query, validate, h) == ServeSpec(zero, body, params, query, validate', h')
  {
  }

  /** A validation failure is a 400 carrying the validator error's text, and the handler plays no part. */
  lemma ServeValidationFailure<I, O>(zero: I, body: I -> BodyParse<I>, params: I -> Parse<I>, query: I -> Parse<I>,
                                     validate: I -> Option<Error>, h: I -> HandlerResult<O>, h': I -> HandlerResult<O>)
    requires Decode(zero, body, params, query).Filled?
    requires validate(Decode(zero, body, params, query).req).Some?
    ensures var e := validate(Decode(zero, body, params, query).req).value;
      ServeSpec(zero, body, params, query, validate, h) == Failed(FiberError(400, e.ErrorText()))
    ensures ServeSpec(zero, body, params, query, validate, h) == ServeSpec(zero, body, params, query, validate, h')
  {
  }

  /**
   * Once the request is decoded and valid, the outcome is the handler's on that
   * very request: its status and response on success, and its error mapped otherwise.
   */
  lemma ServeCallsHandler<I, O>(zero: I, body: I -> BodyParse<I>, params: I -> Parse<I>, query: I -> Parse<I>,
                                validate: I -> Option<Error>, h: I -> HandlerResult<O>)
    requires Decode(zero, body, params, query).Filled?
    requires validate(Decode(zero, body, params, query).req).None?
    ensures var res := h(Decode(zero, body, params, query).req);
      && (res.err.None? ==> ServeSpec(zero, body, params, query, validate, h) == Written(res.status, res.resp))
      && (res.err.Some? && res.err.value.Typed? ==>
           var t := res.err.value.typed;
           ServeSpec(zero, body, params, query, validate, h) == Failed(FiberError(t.httpCode, t.message + " code:" + t.code)))
      && (res.err.Some? && !res.err.value.Typed? ==>
           ServeSpec(zero, body, params, query, validate, h) ==
             Failed(FiberError(StatusInternalServerError, res.err.value.ErrorText())))
  {
  }

  /**
   * Serving a create request whose record lacks all four required fields gives a
   * 400 whose text is the four validation messages, then " code:400".
   */
  lemma ServeEmptyCreateRequest<O>(zero: User, body: User -> BodyParse<User>, params: User -> Parse<User>,
                                   query: User -> Parse<User>, h: User -> HandlerResult<O>)
    requires Decode(zero, body, params, query).Filled?
    requires var u := Decode(zero, body, params, query).req;
      u.firstName == "" && u.email == "" && u.nickName == "" && u.country == ""
    ensures ServeSpec(zero, body, params, query,
                      u => HandlerUser.ValidationError(HandlerUser.Violations(HandlerUser.CreateRules(u))), h) ==
      Failed(FiberError(400,
        "firstName can't be empty" + HandlerUser.Separator + "email can't be empty" + HandlerUser.Separator
        + "nickName can't be empty" + HandlerUser.Separator + "country can't be empty" + " code:400"))
  {
    var u := Decode(zero, body, params, query).req;
    var validate := (u: User) => HandlerUser.ValidationError(HandlerUser.Violations(HandlerUser.CreateRules(u)));
    HandlerUser.CreateValidationMessages(u);
    BaseErrors();
    var m := "firstName can't be empty" + HandlerUser.Separator + "email can't be empty" + HandlerUser.Separator
      + "nickName can't be empty" + HandlerUser.Separator + "country can't be empty";
    assert validate(u) == Some(Typed(ErrBadRequest.SetMessage(m)));
    ServeValidationFailure(zero, body, params, query, validate, h, h);
    assert Typed(ErrBadRequest.SetMessage(m)).ErrorText() == m + " code:" + "400";
    assert m + " code:" + "400" == m + " code:400";
  }

  /** The part of a fiber request context the served handler writes. */
  class FiberCtx<O> {
    var status: int
    /** The JSON payload written so far: `None` before any write, `Some(None)` for `null`. */
    var sent: Option<Option<O>>

    /** A fresh context: status 200, nothing written. */
    constructor ()
      ensures status == StatusOK && sent == None
    {
      status := StatusOK;
      sent := None;
    }
  }

  /**
   * `Serve(h)` applied to one request context: fill the request from the body,
   * the path and the query, validate it, call `h`, and write the success status
   * and payload, or return the error without writing.
   */
  method Serve<I, O>(c: FiberCtx<O>, zero: I, body: I -> BodyParse<I>, params: I -> Parse<I>, query: I -> Parse<I>,
                     validate: I -> Option<Error>, h: I -> HandlerResult<O>) returns (err: Option<HandlerError>)
    modifies c
    ensures var r := ServeSpec(zero, body, params, query, validate, h);
      && (r.Written? ==> err == None && c.status == r.status && c.sent == Some(r.resp))
      && (r.Failed? ==> err == Some(r.error) && c.status == old(c.status) && c.sent == old(c.sent))
  {
    var req := zero;
    var b := body(req);
    if b.BodyFailed? {
      return Some(Passed(b.error));
    }
    if b.BodyFilled? {
      req := b.req;
    }
    var p := params(req);
    if p.ParseFailed? {
      return Some(Passed(p.error));
    }
    req := p.req;
    var q := query(req);
    if q.ParseFailed? {
      return Some(Passed(q.error));
    }
    req := q.req;
    var v := validate(req);
    if v.Some? {
      return Some(FiberError(StatusBadRequest, v.value.ErrorText()));
    }
    var res := h(req);
    if res.err.Some? {
      return Some(ErrorRespWithMapping(res.err.value));
    }
    c.status := res.status;
    c.sent := Some(res.resp);
    err := None;
  }

  /** A JSON body the older handlers write. */
  datatype Body =
    | ErrorBody(error: ErrorResponse)
    | UserBody(user: User)
    | PageBody(page: Pagination)
    | EmptyObject              // `struct{}{}`, written as `{}`

  /** One `c.JSON(status, body)` write. */
  datatype Reply = Reply(status: int, body: Body)

  /** `successResp`: the data under the given status, and an empty object, never `null`, for nil data. */
  function SuccessResp(httpStatus: int, data: Option<Body>): (r: Reply)
    ensures r.status == httpStatus
    ensures data.None? ==> r.body == EmptyObject
    ensures data.Some? ==> r.body == data.value
  {
    Reply(httpStatus, if data.None? then EmptyObject else data.value)
  }

  /** `errorResp`: the error's code and message, under the given status; its own transport status is not used. */
  function ErrorResp(httpStatus: int, e: TypedError): (r: Reply)
    ensures r.status == httpStatus
    ensures r.body == ErrorBody(ErrorResponse(e.message, e.code))
  {
    Reply(httpStatus, ErrorBody(e.ErrorResp()))
  }

  /**
   * How the older handlers answer a service error: a typed error under its own
   * status with its own code and message; any other error as the generic
   * internal error, whatever its text.
   */
  function ErrorReply(e: Error): (r: Reply)
    ensures e.Typed? ==> r == ErrorResp(e.typed.httpCode, e.typed)
    ensures !e.Typed? ==> r == Reply(500, ErrorBody(ErrorResponse("internal server error", "500")))
  {
    if e.Typed? then Reply(e.typed.HttpCode(), ErrorBody(e.typed.ErrorResp()))
    else Reply(StatusInternalServerError, ErrorBody(ErrInternal.ErrorResp()))
  }

  /** The 400 reply built from the base bad request with the message replaced. */
  function BadRequestReply(message: string): (r: Reply)
    ensures r == Reply(400, ErrorBody(ErrorResponse(message, "400")))
  {
    BaseErrors();
    Reply(StatusBadRequest, ErrorBody(ErrBadRequest.SetMessage(message).ErrorResp()))
  }

  /** A request body as the older handlers decode it: the value, or the decoder's error text. */
  datatype Decoded<T> = DecodedOk(value: T) | DecodeError(message: string)

  /** `c.QueryInt(key, default)`: the integer given in the query, or the default when absent or not an integer. */
  function QueryInt(q: Option<Int64>, default: Int64): (r: Int64)
    ensures q.None? ==> r == default
    ensures q.Some? ==> r == q.value
  {
    if q.Some? then q.value else default
  }

  /** What `UpdateUserById` answers and leaves in the collection. */
  function UpdateUserByIdReply(s: Snapshot, body: Decoded<User>, id: string, now: Time): (Reply, Snapshot)
  {
    if body.DecodeError? then (BadRequestReply(body.message), s)
    else if |id| == 0 then (BadRequestReply("Please provide id in endpoint"), s)
    else
      var o := UpdateSpec(s, id, body.value, now);
      (if o.r.Err? then ErrorReply(o.r.error) else Reply(StatusOK, UserBody(o.r.value)), o.after)
  }

  /**
   * The body is decoded before the id is looked at, and neither a decode failure
   * nor a missing id reaches the service; an update of a record that does not
   * exist is answered as an internal error, since the driver's "no documents"
   * error is not typed.
   */
  lemma UpdateUserByIdReplies(s: Snapshot, body: Decoded<User>, id: string, now: Time)
    requires WellFormed(s)
    ensures body.DecodeError? ==>
      UpdateUserByIdReply(s, body, id, now) == (Reply(400, ErrorBody(ErrorResponse(body.message, "400"))), s)
    ensures body.DecodedOk? && id == "" ==>
      UpdateUserByIdReply(s, body, id, now) ==
        (Reply(400, ErrorBody(ErrorResponse("Please provide id in endpoint", "400"))), s)
    ensures body.DecodedOk? && id != "" && id !in s.docs && s.failing == map[] ==>
      UpdateUserByIdReply(s, body, id, now) == (Reply(500, ErrorBody(ErrorResponse("internal server error", "500"))), s)
  {
    if body.DecodedOk? && id != "" && id !in s.docs && s.failing == map[] {
      if UniquenessError(s, id, body.value).None? {
        UpdateMissingIsNoDocuments(s, id, body.value, now);
      } else {
        UpdateRejectedWritesNothing(s, id, body.value, now);
      }
    }
  }

  /** What `DeleteUserById` answers and leaves in the collection. */
  function DeleteUserByIdReply(s: Snapshot, id: string, now: Time): (Reply, Snapshot)
  {
    if id == "" then (BadRequestReply("id not provided"), s)
    else
      var o := DeleteSpec(s, id, now);
      (if o.err.Some? then ErrorReply(o.err.value) else Reply(StatusOK, EmptyObject), o.after)
  }

  /**
   * An empty id is refused before the service; a stored record is soft deleted
   * and answered with an empty object; a missing one is an internal error.
   */
  lemma DeleteUserByIdReplies(s: Snapshot, id: string, now: Time)
    requires WellFormed(s) && s.failing == map[]
    ensures id == "" ==>
      DeleteUserByIdReply(s, id, now) == (Reply(400, ErrorBody(ErrorResponse("id not provided", "400"))), s)
    ensures id != "" && id in s.docs ==>
      DeleteUserByIdReply(s, id, now) == (Reply(200, EmptyObject), SoftDeleted(s, id, now))
    ensures id != "" && id !in s.docs ==>
      DeleteUserByIdReply(s, id, now) == (Reply(500, ErrorBody(ErrorResponse("internal server error", "500"))), s)
  {
    if id != "" {
      DeleteMeaning(s, id, now);
    }
  }

  /** What `ListUsers` answers. */
  function ListUsersReply(s: Snapshot, body: Decoded<UserFilter>, limitQ: Option<Int64>, offsetQ: Option<Int64>): Reply
  {
    if body.DecodeError? then BadRequestReply(body.message)
    else
      match ListUsersSpec(s, body.value, QueryInt(limitQ, 20), QueryInt(offsetQ, 0))
      case Err(e) => ErrorReply(e)
      case Ok(p) => Reply(StatusOK, PageBody(p))
  }

  /**
   * Without limit and offset in the query, the first page of at most 20 accepted
   * users is answered, with no previous page.
   */
  lemma ListUsersDefaults(s: Snapshot, f: UserFilter)
    requires Counting !in s.failing && Finding !in s.failing
    ensures var r := ListUsersReply(s, DecodedOk(f), None, None);
      && r.status == 200 && r.body.PageBody?
      && r.body.page.limit == 20 && r.body.page.offset == 0 && !r.body.page.hasPrevious
      && |r.body.page.items| <= 20
      && (forall i :: 0 <= i < |r.body.page.items| ==> Accepts(f, r.body.page.items[i]))
  {
    ListUsersMeaning(s, f, 20, 0);
  }

  /** The create request of this package: the embedded record. */
  datatype CreateUserRequest = CreateUserRequest(user: UserRef)
  {
    /** `Validate`: the same checks, messages and order as the typed handlers' create request. */
    method Validate() returns (err: Option<Error>)
      ensures err == HandlerUser.ValidationError(HandlerUser.Violations(HandlerUser.CreateRules(user.v)))
    {
      err := HandlerUser.CreateUserRequest(user).Validate();
    }
  }

  datatype CreateUserResponse = CreateUserResponse(user: UserRef)

  /** The older `userHandler`, over the user service. */
  class UserHandler {
    const userService: UserService

    constructor (userService: UserService)
      ensures this.userService == userService
    {
      this.userService := userService;
    }

    /** `CreateUserCpy`: 201 with the created record, or (nil, 0, the service's error). */
    method CreateUserCpy(req: CreateUserRequest, hash: string -> HashOutcome, newId: string, now: Time)
      returns (resp: Option<CreateUserResponse>, status: int, err: Option<Error>)
      requires newId != ""
      modifies req.user, userService.repository.collection
      ensures var o := CreateUserSpec(old(userService.repository.collection.State()), old(req.user.v),
                                      hash(old(req.user.v.password)), newId, now);
        && req.user.v == o.user && userService.repository.collection.State() == o.after
        && err == o.err
        && (o.err.None? ==> resp == Some(CreateUserResponse(req.user)) && status == StatusCreated)
        && (o.err.Some? ==> resp == None && status == 0)
    {
      var createdUser, e := userService.CreateUser(req.user, hash, newId, now);
      if e.Some? {
        return None, 0, e;
      }
      resp, status, err := Some(CreateUserResponse(createdUser)), StatusCreated, None;
    }

    /** `UpdateUserById`: decode the body, check the path id, update, and answer. */
    method UpdateUserById(body: Decoded<User>, id: string, now: Time) returns (reply: Reply)
      modifies userService.repository.collection
      ensures var o := UpdateUserByIdReply(old(userService.repository.collection.State()), body, id, now);
        reply == o.0 && userService.repository.collection.State() == o.1
    {
      if body.DecodeError? {
        return Reply(StatusBadRequest, ErrorBody(ErrBadRequest.SetMessage(body.message).ErrorResp()));
      }
      var user := body.value;
      if |id| == 0 {
        return Reply(StatusBadRequest, ErrorBody(ErrBadRequest.SetMessage("Please provide id in endpoint").ErrorResp()));
      }
      var updatedUser := userService.UpdateUserById(id, user, now);
      if updatedUser.Err? {
        var e := updatedUser.error;
        if !e.Typed? {
          return Reply(StatusInternalServerError, ErrorBody(ErrInternal.ErrorResp()));
        }
        return Reply(e.typed.HttpCode(), ErrorBody(e.typed.ErrorResp()));
      }
      reply := Reply(StatusOK, UserBody(updatedUser.value));
    }

    /** `DeleteUserById`: check the path id, soft delete, and answer. */
    method DeleteUserById(id: string, now: Time) returns (reply: Reply)
      modifies userService.repository.collection
      ensures var o := DeleteUserByIdReply(old(userService.repository.collection.State()), id, now);
        reply == o.0 && userService.repository.collection.State() == o.1
    {
      if id == "" {
        return Reply(StatusBadRequest, ErrorBody(ErrBadRequest.SetMessage("id not provided").ErrorResp()));
      }
      var err := userService.DeleteUserById(id, now);
      if err.Some? {
        var e := err.value;
        if !e.Typed? {
          return Reply(StatusInternalServerError, ErrorBody(ErrInternal.ErrorResp()));
        }
        return Reply(e.typed.HttpCode(), ErrorBody(e.typed.ErrorResp()));
      }
      reply := Reply(StatusOK, EmptyObject);
    }

    /** `ListUsers`: decode the filter, read limit and offset from the query, list, and answer. */
    method ListUsers(body: Decoded<UserFilter>, limitQ: Option<Int64>, offsetQ: Option<Int64>) returns (reply: Reply)
      ensures reply == ListUsersReply(userService.repository.collection.State(), body, limitQ, offsetQ)
    {
      if body.DecodeError? {
        return Reply(StatusBadRequest, ErrorBody(ErrBadRequest.SetMessage(body.message).ErrorResp()));
      }
      var userReq := body.value;
      var limit := QueryInt(limitQ, 20);
      var offset := QueryInt(offsetQ, 0);
      var paginatedData := userService.ListUsers(userReq, limit, offset);
      if paginatedData.Err? {
        var e := paginatedData.error;
        if !e.Typed? {
          return Reply(StatusInternalServerError, ErrorBody(ErrInternal.ErrorResp()));
        }
        return Reply(e.typed.HttpCode(), ErrorBody(e.typed.ErrorResp()));
      }
      reply := Reply(StatusOK, PageBody(paginatedData.value));
    }
  }
}

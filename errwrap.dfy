/**
 * The typed error of pkg/lib/errwrap: an `errorWrapper` holds a human message,
 * a machine code and a transport status.  Its setters never touch the receiver:
 * they clone it and change the clone (copy-on-write), so the package-level base
 * errors can be customised freely.
 */
module ErrWrap {
  import Text

  // The net/http status codes the core uses.
  const StatusOK := 200
  const StatusCreated := 201
  const StatusBadRequest := 400
  const StatusNotFound := 404
  const StatusConflict := 409
  const StatusInternalServerError := 500

  /** `ErrorResponse`: the only shape of an error ever serialised to a caller. */
  datatype ErrorResponse = ErrorResponse(message: string, code: string)

  /** The contents of an `errorWrapper`, i.e. what an `IError` denotes. */
  datatype TypedError = TypedError(message: string, code: string, httpCode: int)
  {
    /** `SetMessage(msg)`: the same error with its message replaced. */
    function SetMessage(msg: string): (r: TypedError)
      ensures r.message == msg
      ensures r.code == code && r.httpCode == httpCode
    {
      this.(message := msg)
    }

    /** `SetHttpCode(c)`: the same error with its transport status replaced. */
    function SetHttpCode(c: int): (r: TypedError)
      ensures r.httpCode == c
      ensures r.message == message && r.code == code
    {
      this.(httpCode := c)
    }

    /** `HttpCode()`. */
    function HttpCode(): int
    {
      httpCode
    }

    /** `ErrorResp()`: code and message only; the transport status is not exposed. */
    function ErrorResp(): (r: ErrorResponse)
      ensures r.code == code && r.message == message
    {
      ErrorResponse(message, code)
    }

    /** `Error()`: the message, then " code:", then the code. */
    function Error(): (r: string)
      ensures |r| == |message| + 6 + |code|
      ensures r[..|message|] == message
      ensures r[|message|..|message| + 6] == " code:"
      ensures r[|message| + 6..] == code
    {
      message + " code:" + code
    }
  }

  /** `NewError(msg, code)`: no transport status yet. */
  function NewError(msg: string, code: string): (r: TypedError)
    ensures r.message == msg && r.code == code && r.httpCode == 0
  {
    TypedError(msg, code, 0)
  }

  /** The last `SetMessage` wins. */
  lemma SetMessageLastWins(e: TypedError, a: string, b: string)
    ensures e.SetMessage(a).SetMessage(b) == e.SetMessage(b)
  {
  }

  /** The two setters touch different fields, so their order does not matter. */
  lemma SettersCommute(e: TypedError, msg: string, c: int)
    ensures e.SetMessage(msg).SetHttpCode(c) == e.SetHttpCode(c).SetMessage(msg)
  {
  }

  /** `ErrorResp` depends on message and code only. */
  lemma ErrorRespIgnoresHttpCode(e: TypedError, c: int)
    ensures e.SetHttpCode(c).ErrorResp() == e.ErrorResp()
  {
  }

  /**
   * An `errorWrapper` object: the pointer an `IError` holds.  No method has a
   * modifies clause, so none of them can change the receiver; the setters return
   * a freshly allocated clone.
   */
  class ErrorWrapper {
    var message: string
    var code: string
    var httpCode: int

    /** The error this object denotes. */
    function Value(): TypedError
      reads this
    {
      TypedError(message, code, httpCode)
    }

    /** `NewError(msg, code)`: allocates a wrapper with transport status 0. */
    constructor (msg: string, code: string)
      ensures Value() == NewError(msg, code)
    {
      message := msg;
      this.code := code;
      httpCode := 0;
    }

    /** `clone`: nil stays nil; otherwise a new object with the same contents. */
    static method Clone(e: ErrorWrapper?) returns (r: ErrorWrapper?)
      ensures e == null <==> r == null
      ensures r != null ==> fresh(r) && r.Value() == e.Value()
    {
      if e == null {
        return null;
      }
      r := new ErrorWrapper(e.message, e.code);
      r.httpCode := e.httpCode;
    }

    /** `SetMessage(msg)`: a clone with the message replaced; the receiver is unchanged. */
    method SetMessage(msg: string) returns (r: ErrorWrapper)
      ensures fresh(r) && r.Value() == Value().SetMessage(msg)
      ensures unchanged(this)
    {
      var newErr := Clone(this);
      newErr.message := msg;
      r := newErr;
    }

    /** `SetHttpCode(c)`: a clone with the transport status replaced; the receiver is unchanged. */
    method SetHttpCode(c: int) returns (r: ErrorWrapper)
      ensures fresh(r) && r.Value() == Value().SetHttpCode(c)
      ensures unchanged(this)
    {
      var newErr := Clone(this);
      newErr.httpCode := c;
      r := newErr;
    }
  }

  // The four base errors of errors.go.
  const ErrBadRequest: TypedError := NewError("invalid argument", "400").SetHttpCode(StatusBadRequest)
  const ErrNotFound: TypedError := NewError("resource not found", "404").SetHttpCode(StatusNotFound)
  const ErrConflict: TypedError := NewError("already exists", "409").SetHttpCode(StatusConflict)
  const ErrInternal: TypedError := NewError("internal server error", "500").SetHttpCode(StatusInternalServerError)

  /** The base errors' contents, and each code is the decimal rendering of its status. */
  lemma BaseErrors()
    ensures ErrBadRequest == TypedError("invalid argument", "400", 400)
    ensures ErrNotFound == TypedError("resource not found", "404", 404)
    ensures ErrConflict == TypedError("already exists", "409", 409)
    ensures ErrInternal == TypedError("internal server error", "500", 500)
    ensures forall e | e in {ErrBadRequest, ErrNotFound, ErrConflict, ErrInternal} :: e.code == Text.Itoa(e.httpCode)
  {
  }

  /** A customised bad request is the same as building it from scratch. */
  lemma BadRequestWithMessage(m: string)
    ensures ErrBadRequest.SetMessage(m) == NewError(m, Text.Itoa(StatusBadRequest)).SetHttpCode(StatusBadRequest)
  {
    BaseErrors();
  }
}

/** The API's error taxonomy (api/errors.go): the `Error` value with its
    HTTP status code, its two wrapping constructors, and the choice of
    response the error handler makes for any error. */
module ApiErrors {
  import opened Common

  const StatusBadRequest: int := 400
  const StatusNotFound: int := 404
  const StatusInternalServerError: int := 500

  const NotFoundPrefix: GoString := "resource not found -> "
  const BadRequestPrefix: GoString := "invalid JSON request -> "

  /** `api.Error`: a status code and a message, answered as
      `{"code": code, "error": err}`. */
  datatype Error = Error(code: int, err: GoString)

  /** A Go `error` reaching the handler: an `api.Error`, or any other error,
      known here only by the text its `Error()` method returns. */
  datatype GoError = ApiError(e: Error) | OtherError(text: GoString)

  /** `err.Error()`; for an `api.Error` it is its message field. */
  function ErrorText(err: GoError): GoString
  {
    match err
    case ApiError(e) => e.err
    case OtherError(t) => t
  }

  /** `NewError`. */
  function NewError(code: int, err: GoString): (e: Error)
    ensures e.code == code && e.err == err
    ensures ErrorText(ApiError(e)) == err
  {
    Error(code, err)
  }

  /** `ErrNotResourceNotFound`: status 404, the inner error's text behind a
      fixed prefix. */
  function ErrNotResourceNotFound(err: GoError): (e: Error)
    ensures e.code == StatusNotFound
    ensures e.err == NotFoundPrefix + ErrorText(err)
  {
    Error(StatusNotFound, NotFoundPrefix + ErrorText(err))
  }

  /** `ErrBadRequest`: status 400, the inner error's text behind a fixed
      prefix. */
  function ErrBadRequest(err: GoError): (e: Error)
    ensures e.code == StatusBadRequest
    ensures e.err == BadRequestPrefix + ErrorText(err)
  {
    Error(StatusBadRequest, BadRequestPrefix + ErrorText(err))
  }

  /** The wrapped error's text stays readable behind the prefix: the two
      constructors lose nothing, and no wrapped error of one kind equals a
      wrapped error of the other. */
  lemma WrappersKeepInnerText(a: GoError, b: GoError)
    ensures ErrNotResourceNotFound(a).err[|NotFoundPrefix|..] == ErrorText(a)
    ensures ErrBadRequest(a).err[|BadRequestPrefix|..] == ErrorText(a)
    ensures ErrNotResourceNotFound(a) == ErrNotResourceNotFound(b) ==> ErrorText(a) == ErrorText(b)
    ensures ErrBadRequest(a) == ErrBadRequest(b) ==> ErrorText(a) == ErrorText(b)
    ensures ErrNotResourceNotFound(a) != ErrBadRequest(b)
  {
    var na, nb := ErrNotResourceNotFound(a).err, ErrNotResourceNotFound(b).err;
    assert na[|NotFoundPrefix|..] == ErrorText(a);
    assert nb[|NotFoundPrefix|..] == ErrorText(b);
    var ba, bb := ErrBadRequest(a).err, ErrBadRequest(b).err;
    assert ba[|BadRequestPrefix|..] == ErrorText(a);
    assert bb[|BadRequestPrefix|..] == ErrorText(b);
  }

  /** The status and body the handler answers with. */
  datatype Response = Response(status: int, body: Error)

  /** `ErrorHandler`: an `api.Error` is answered with its own code and
      unchanged body; any other error with status 500 and its text. */
  function ErrorHandler(err: GoError): (r: Response)
    ensures r.status == r.body.code
    ensures r.body.err == ErrorText(err)
    ensures err.ApiError? ==> r.body == err.e
    ensures err.OtherError? ==> r.status == StatusInternalServerError
  {
    match err
    case ApiError(e) => Response(e.code, e)
    case OtherError(t) =>
      var e := NewError(StatusInternalServerError, t);
      Response(e.code, e)
  }

  /** The statuses the handlers' wrapped errors reach the client with. */
  lemma WrappedErrorStatus(inner: GoError)
    ensures ErrorHandler(ApiError(ErrNotResourceNotFound(inner))).status == StatusNotFound
    ensures ErrorHandler(ApiError(ErrBadRequest(inner))).status == StatusBadRequest
    ensures ErrorHandler(ApiError(ErrNotResourceNotFound(inner))).body.err == NotFoundPrefix + ErrorText(inner)
  {
  }
}

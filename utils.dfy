/** The helpers of internal/utils: bearer-token extraction and validation-error responses
    (http.go), and middleware composition (middleware.go). */
module Utils {
  import opened Strings

  /** ExtractBearerToken: "" unless the header starts with exactly "Bearer " (case-sensitive,
      the scheme name of RFC 6750 section 2.1); otherwise what follows that one prefix,
      with leading and trailing white space removed. */
  function ExtractBearerToken(header: string): (token: string)
    ensures !HasPrefix(header, "Bearer ") ==> token == ""
    ensures Trimmed(token)
    ensures HasPrefix(header, "Bearer ") ==> token == TrimSpace(header[|"Bearer "|..])
  {
    if !HasPrefix(header, "Bearer ") then ""
    else TrimSpace(TrimPrefix(header, "Bearer "))
  }

  /** Round trip: a trimmed token written after "Bearer " with any surrounding white space
      is extracted unchanged. */
  lemma ExtractBearerRoundTrip(pre: string, token: string, post: string)
    requires AllSpace(pre) && AllSpace(post) && Trimmed(token)
    ensures ExtractBearerToken("Bearer " + pre + token + post) == token
  {
    var h := "Bearer " + pre + token + post;
    assert h[..7] == "Bearer ";
    assert h[7..] == pre + token + post;
    TrimSpaceOfPadded(pre, token, post);
  }

  /** "Bearer " followed only by white space yields no token. */
  lemma ExtractBearerBlank(pad: string)
    requires AllSpace(pad)
    ensures ExtractBearerToken("Bearer " + pad) == ""
  {
    var h := "Bearer " + pad;
    assert h[..7] == "Bearer ";
    assert h[7..] == pad;
    TrimSpaceOfBlank(pad);
  }

  /** Only one prefix is stripped. */
  lemma ExtractBearerStripsOnce()
    ensures ExtractBearerToken("Bearer " + "Bearer x") == "Bearer x"
  {
    var t := "Bearer x";
    var h := "Bearer " + t;
    assert h[..|"Bearer "|] == "Bearer ";
    assert h[|"Bearer "|..] == t;
    assert !IsSpace(t[0]) && !IsSpace(t[|t| - 1]);
    assert "" + t + "" == t;
    TrimSpaceOfPadded("", t, "");
  }

  /** The scheme name is matched case-sensitively. */
  lemma ExtractBearerCaseSensitive()
    ensures ExtractBearerToken("bearer x") == ""
  {
    assert "bearer x"[..7][0] != "Bearer "[0];
  }

  /** validator.FieldError: the struct field and the validation tag that failed. */
  datatype FieldError = FieldError(field: string, tag: string)

  /** ValidationError as sent to the client. */
  datatype ValidationError = ValidationError(field: string, error: string)

  /** The error RespondWithValidationErrors is given: validator.ValidationErrors, or any other error. */
  datatype RequestError = ValidationErrors(fieldErrors: seq<FieldError>) | OtherError(message: string)

  /** The JSON body written: ValidationErrorResponse, or the fallback {"error": message}. */
  datatype ErrorBody = ValidationErrorResponse(errors: seq<ValidationError>) | ErrorMessage(error: string)

  const StatusBadRequest: int := 400

  /** RespondWithValidationErrors: always 400; for validation errors one entry per field
      error, in order, reading "failed on <tag>"; for any other error its message. */
  method RespondWithValidationErrors(err: RequestError) returns (status: int, body: ErrorBody)
    ensures status == StatusBadRequest
    ensures err.OtherError? ==> body == ErrorMessage(err.message)
    ensures err.ValidationErrors? ==> body.ValidationErrorResponse? && |body.errors| == |err.fieldErrors|
    ensures err.ValidationErrors? ==> forall i :: 0 <= i < |body.errors| ==>
              body.errors[i] == ValidationError(err.fieldErrors[i].field, "failed on " + err.fieldErrors[i].tag)
  {
    if err.ValidationErrors? {
      var errs: seq<ValidationError> := [];
      for k := 0 to |err.fieldErrors|
        invariant |errs| == k
        invariant forall i :: 0 <= i < k ==>
                    errs[i] == ValidationError(err.fieldErrors[i].field, "failed on " + err.fieldErrors[i].tag)
      {
        var fe := err.fieldErrors[k];
        errs := errs + [ValidationError(fe.field, "failed on " + fe.tag)];
      }
      return StatusBadRequest, ValidationErrorResponse(errs);
    }
    return StatusBadRequest, ErrorMessage(err.message);
  }

  /** A handler with the middlewares wrapped around it, outermost first: the closures Go
      builds, written as data. `H` names the innermost handler. */
  datatype Chain<M, H> = Handler(h: H) | Wrap(middleware: M, next: Chain<M, H>)

  /** The middlewares of a chain, outermost first. */
  function Layers<M, H>(c: Chain<M, H>): seq<M>
  {
    match c
    case Handler(_) => []
    case Wrap(m, next) => [m] + Layers(next)
  }

  /** ms[0](ms[1](... ms[|ms|-1](next))): the first listed middleware is outermost. */
  function Nest<M, H>(ms: seq<M>, next: Chain<M, H>): Chain<M, H>
  {
    if ms == [] then next else Wrap(ms[0], Nest(ms[1..], next))
  }

  /** ComposeMiddleware applied to `next`: wrap from the last middleware to the first. */
  method ComposeMiddleware<M, H>(middlewares: seq<M>, next: Chain<M, H>) returns (r: Chain<M, H>)
    ensures r == Nest(middlewares, next)
    ensures Layers(r) == middlewares + Layers(next)
  {
    r := next;
    var i := |middlewares| - 1;
    while i >= 0
      invariant -1 <= i < |middlewares|
      invariant r == Nest(middlewares[i + 1..], next)
    {
      assert middlewares[i..][1..] == middlewares[i + 1..];
      r := Wrap(middlewares[i], r);
      i := i - 1;
    }
    assert middlewares[0..] == middlewares;
    NestLayers(middlewares, next);
  }

  /** Each middleware is applied exactly once, in list order, around the handler. */
  lemma {:induction false} NestLayers<M, H>(ms: seq<M>, next: Chain<M, H>)
    ensures Layers(Nest(ms, next)) == ms + Layers(next)
  {
    if ms != [] {
      NestLayers(ms[1..], next);
      assert ms == [ms[0]] + ms[1..];
    }
  }

  /** Composing no middleware leaves the handler as it is. */
  lemma NestEmpty<M, H>(next: Chain<M, H>)
    ensures Nest([], next) == next
  {
  }

  /** Composing a list is composing its two halves, one inside the other. */
  lemma {:induction false} NestAppend<M, H>(a: seq<M>, b: seq<M>, next: Chain<M, H>)
    ensures Nest(a + b, next) == Nest(a, Nest(b, next))
  {
    if a == [] {
      assert a + b == b;
    } else {
      assert (a + b)[0] == a[0];
      assert (a + b)[1..] == a[1..] + b;
      NestAppend(a[1..], b, next);
    }
  }
}

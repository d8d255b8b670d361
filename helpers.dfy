/**
  * The classified error of the `handlers` package (handlers/helpers.go) and the
  * model of a Go `error` value that every layer of the API passes around.
  */
module Helpers {
  import opened Wrappers

  // The net/http status codes the API uses.
  const STATUS_OK := 200
  const STATUS_BAD_REQUEST := 400
  const STATUS_NOT_FOUND := 404
  const STATUS_INTERNAL_SERVER_ERROR := 500

  const ERROR_PREFIX := "Error Code "

  /**
    * `HTTPError`: an explicit status code and the wrapped error. Only the text of
    * the wrapped error is ever read (through its `Error()` method), so the model
    * keeps that text.
    */
  datatype HTTPError = HTTPError(code: int, message: string)
  {
    /** `Error()`: the format "Error Code %d: %s" applied to the code and the message. */
    function Error(): (s: string)
      ensures |s| >= |ERROR_PREFIX| + 3 && s[..|ERROR_PREFIX|] == ERROR_PREFIX
    {
      ERROR_PREFIX + FormatInt(code) + ": " + message
    }
  }

  /** `NewHTTPError(code, err)`: a classified error carrying exactly that code and that error. */
  function NewHTTPError(code: int, message: string): (e: HTTPError)
    ensures e.code == code && e.message == message
  {
    HTTPError(code, message)
  }

  /**
    * A Go `error` value. `Classified` is an `*HTTPError`; `Opaque` is any other
    * error (a driver, parse or commit failure), known only by its text.
    */
  datatype Error = Classified(http: HTTPError) | Opaque(text: string)

  /** `err.Error()` */
  function Text(e: Error): string
  {
    match e
    case Classified(h) => h.Error()
    case Opaque(t) => t
  }

  /** A Go `(T, error)` pair in which the value is meaningless whenever the error is not nil. */
  datatype Result<+T> = Ok(value: T) | Err(error: Error)

  /** An error that, when classified, carries one of the two client-error statuses the handlers use. */
  predicate ClientStatusOnly(e: Error)
  {
    e.Classified? ==> e.http.code == STATUS_BAD_REQUEST || e.http.code == STATUS_NOT_FOUND
  }

  /** A handler's result whose error, if any, satisfies `ClientStatusOnly`. */
  predicate ClassifiedAsClientError<T>(r: Result<T>)
  {
    r.Err? ==> ClientStatusOnly(r.error)
  }

  /** A handler's `if err != nil { return nil, err }; return value, nil`. */
  function Returned<T>(err: Option<Error>, value: T): (r: Result<T>)
    ensures r.Err? <==> err.Some?
    ensures r.Err? ==> r.error == err.value
    ensures r.Ok? ==> r.value == value
  {
    if err.Some? then Err(err.value) else Ok(value)
  }

  /** `NewHTTPError(http.StatusBadRequest, err)`, the answer to input that does not parse. */
  function BadRequest(e: Error): (r: Error)
    ensures r.Classified? && r.http.code == STATUS_BAD_REQUEST && r.http.message == Text(e)
  {
    Classified(NewHTTPError(STATUS_BAD_REQUEST, Text(e)))
  }

  // ----- decimal text of an int, as `%d` writes it -----

  predicate IsDigit(c: char)
  {
    '0' <= c <= '9'
  }

  predicate AllDigits(s: string)
  {
    forall i :: 0 <= i < |s| ==> IsDigit(s[i])
  }

  function DigitChar(d: nat): (c: char)
    requires d < 10
    ensures IsDigit(c) && DigitValue(c) == d
  {
    ('0' as int + d) as char
  }

  function DigitValue(c: char): nat
    requires IsDigit(c)
  {
    c as int - '0' as int
  }

  /** The decimal digits of `n`, most significant first, with no leading zero. */
  function FormatNat(n: nat): (s: string)
    ensures |s| > 0 && AllDigits(s)
    ensures |s| > 1 ==> s[0] != '0'
    decreases n
  {
    if n < 10 then [DigitChar(n)] else FormatNat(n / 10) + [DigitChar(n % 10)]
  }

  /** `%d`: a minus sign for negative values, then the digits of the magnitude. */
  function FormatInt(n: int): (s: string)
    ensures |s| > 0
    ensures forall i :: 0 <= i < |s| ==> s[i] == '-' || IsDigit(s[i])
  {
    if n < 0 then "-" + FormatNat(-n) else FormatNat(n)
  }

  function ParseNat(s: string): nat
    requires AllDigits(s)
  {
    if s == [] then 0 else ParseNat(s[..|s| - 1]) * 10 + DigitValue(s[|s| - 1])
  }

  function ParseInt(s: string): Option<int>
  {
    if |s| > 1 && s[0] == '-' && AllDigits(s[1..]) then var m: int := ParseNat(s[1..]); Some(-m)
    else if |s| > 0 && AllDigits(s) then Some(ParseNat(s))
    else None
  }

  /** The position of the first `c` in `s`, if there is one. */
  function IndexOf(s: string, c: char): (r: Option<nat>)
    ensures r.Some? ==> r.value < |s| && s[r.value] == c
    ensures r.Some? ==> forall j :: 0 <= j < r.value ==> s[j] != c
    ensures r.None? ==> forall j :: 0 <= j < |s| ==> s[j] != c
  {
    if s == [] then None
    else if s[0] == c then Some(0)
    else match IndexOf(s[1..], c)
      case None => None
      case Some(i) => Some(i + 1)
  }

  /** Reads the code and the message back out of the text that `Error()` writes. */
  function ParseError(s: string): Option<HTTPError>
  {
    if |s| < |ERROR_PREFIX| || s[..|ERROR_PREFIX|] != ERROR_PREFIX then None
    else
      var rest := s[|ERROR_PREFIX|..];
      match IndexOf(rest, ':')
      case None => None
      case Some(i) =>
        if i + 1 < |rest| && rest[i + 1] == ' ' then
          match ParseInt(rest[..i])
          case None => None
          case Some(code) => Some(HTTPError(code, rest[i + 2..]))
        else None
  }

  lemma {:induction false} ParseFormatNat(n: nat)
    ensures ParseNat(FormatNat(n)) == n
    decreases n
  {
    if n >= 10 {
      var s := FormatNat(n);
      assert s[..|s| - 1] == FormatNat(n / 10);
      ParseFormatNat(n / 10);
    }
  }

  lemma ParseFormatInt(n: int)
    ensures ParseInt(FormatInt(n)) == Some(n)
  {
    if n < 0 {
      var s := FormatInt(n);
      assert s[1..] == FormatNat(-n);
      ParseFormatNat(-n);
    } else {
      ParseFormatNat(n);
    }
  }

  /** `Error()` loses nothing: the code and the message can be read back from its text. */
  lemma ErrorRoundTrip(e: HTTPError)
    ensures ParseError(e.Error()) == Some(e)
  {
    var s := e.Error();
    var f := FormatInt(e.code);
    var rest := s[|ERROR_PREFIX|..];
    assert rest == f + ": " + e.message;
    assert rest[|f|] == ':';
    var r := IndexOf(rest, ':');
    assert r == Some(|f|) by {
      assert forall j :: 0 <= j < |f| ==> rest[j] == f[j];
    }
    assert rest[..|f|] == f;
    ParseFormatInt(e.code);
    assert rest[|f| + 2..] == e.message;
  }

  /** Two classified errors with the same text are the same error. */
  lemma ErrorInjective(a: HTTPError, b: HTTPError)
    requires a.Error() == b.Error()
    ensures a == b
  {
    ErrorRoundTrip(a);
    ErrorRoundTrip(b);
  }
}

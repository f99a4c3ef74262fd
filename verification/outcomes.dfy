/** Python-style results: a value, or the exception the source would raise. */
module Outcomes {

  datatype Option<+T> = None | Some(value: T)

  /** The exceptions the modelled code raises or catches. */
  datatype Exception =
    | IndexError
    | ZeroDivisionError
    | ValueError(message: string)
    | RuntimeError(message: string)
    | HttpException(status: int, detail: string)
    /** Any other exception raised by a collaborator (storage, imaging, model loading). */
    | OtherError(message: string)

  datatype Try<+T> = Ok(value: T) | Raise(exc: Exception)

  /** str(e): the text an exception carries. */
  function Describe(e: Exception): string
  {
    match e
    case IndexError => "list index out of range"
    case ZeroDivisionError => "division by zero"
    case ValueError(m) => m
    case RuntimeError(m) => m
    case HttpException(s, d) => Decimal(s) + ": " + d
    case OtherError(m) => m
  }

  /** Python truthiness of an optional string: neither None nor "". */
  predicate Truthy(s: Option<string>)
  {
    s.Some? && s.value != ""
  }

  predicate StartsWith(s: string, prefix: string)
  {
    |prefix| <= |s| && s[..|prefix|] == prefix
  }

  function DigitChar(d: nat): char
    requires d < 10
  {
    (48 + d) as char
  }

  predicate IsDigit(c: char)
  {
    '0' <= c <= '9'
  }

  /** The decimal digits of n, most significant first. */
  function Digits(n: nat): (s: string)
    ensures |s| > 0 && forall i :: 0 <= i < |s| ==> IsDigit(s[i])
  {
    if n < 10 then [DigitChar(n)] else Digits(n / 10) + [DigitChar(n % 10)]
  }

  /** str(i) for an int: an optional minus sign, then the decimal digits. */
  function Decimal(i: int): (s: string)
    ensures |s| > 0 && (s[0] == '-' <==> i < 0)
  {
    if i < 0 then "-" + Digits(-i) else Digits(i)
  }
}

/** Result types shared by every layer of the translator.

    The translator reports each failure by throwing a runtime_error whose
    message names the problem; every such failure is fatal to the whole
    conversion.  Here a failure is a value instead, and a parser that reads
    from the input also says where the input stood when it finished.
 */
module Common {

  datatype Option<+T> = None | Some(value: T)

  /** The distinct failures, one per message the translator can raise. */
  datatype Error =
    | UnexpectedEof                             // "Unexpected end of file"
    | BadSyntax(token: string)                  // "Bad syntax near \"<token>\""
    | OutOfRange(value: int, lo: int, hi: int)  // "Value <v> is out of range [<lo>, <hi>]"
    | InvalidEnum(token: string)                // "Invalid enum value \"<token>\""
    | BadToken(token: string)                   // "Bad token \"<token>\""

  /** What a parser leaves behind: the value it read and the input that
      follows it, or the error it raised and the input that was left at
      that moment (the stream is not rewound on failure). */
  datatype Parsed<+T> = Ok(value: T, rest: string) | Fail(error: Error, rest: string)
  {
    /** Converts the value of a success, keeping the failure and the rest. */
    function Map<U>(f: T -> U): (r: Parsed<U>)
      ensures r.rest == rest
      ensures r.Ok? <==> Ok?
      ensures r.Ok? ==> r.value == f(value)
      ensures r.Fail? ==> r.error == error
    {
      match this
      case Ok(v, rest) => Ok(f(v), rest)
      case Fail(e, rest) => Fail(e, rest)
    }

    /** The value or the error, without the rest of the input. */
    function ToResult(): (r: Result<T>)
      ensures r.Success? <==> Ok?
      ensures r.Success? ==> r.value == value
      ensures r.Failure? ==> r.error == error
    {
      match this
      case Ok(v, _) => Success(v)
      case Fail(e, _) => Failure(e)
    }
  }

  /** Outcome of an operation that does not read the input. */
  datatype Result<+T> = Success(value: T) | Failure(error: Error)
  {
    function Map<U>(f: T -> U): (r: Result<U>)
      ensures r.Success? <==> Success?
      ensures r.Success? ==> r.value == f(value)
      ensures r.Failure? ==> r.error == error
    {
      match this
      case Success(v) => Success(f(v))
      case Failure(e) => Failure(e)
    }
  }
}

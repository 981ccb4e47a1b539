/** Parsing one value from the input: the string, numeric, bounded and
    enumerated readers, and the keyword dispatch built on them.

    Every reader takes exactly one line.  Numeric extraction
    (`istringstream >> x`) is not modelled: it is the parameter `ex`, a
    partial function from the target type and the trimmed token to a value.
 */
module Values {
  import opened Common
  import opened Text

  /** The C++ types numbers are extracted into.  FIT_UINT32Z,
      FIT_DATE_TIME and FIT_WORKOUT_CAPABILITIES are all `uint32_t`, so
      they extract alike. */
  datatype NumType = Int | UInt16 | UInt32

  /** `istringstream(k) >> x` for a value `x` of the given type: `None` when
      the stream fails.  It accepts a token whose prefix is a number and
      ignores what follows that prefix. */
  type Extractor = (NumType, string) -> Option<int>

  /** The input left after reading one line (nothing is left at the end). */
  function DropLine(s: string): (r: string)
    ensures IsSuffixOf(r, s)
    ensures s != [] ==> |r| < |s|
  {
    match Line(s)
    case EndOfInput => []
    case LineOf(_, rest) => rest
  }

  /** Appending input after a complete line only lengthens what follows it. */
  lemma DropLineAppend(s: string, t: string)
    requires s != [] && Terminated(s)
    ensures Terminated(DropLine(s))
    ensures DropLine(s + t) == DropLine(s) + t
  {
    LineAppend(s, t);
  }

  //--------------------------------------------------------------------------
  // value<string>

  /** `value<string>`: the next line, trimmed; at the end of the input, the
      error "Unexpected end of file". */
  function ValueString(input: string): (r: Parsed<string>)
    ensures r.Fail? <==> input == []
    ensures r.Fail? ==> r == Fail(UnexpectedEof, [])
    ensures r.rest == DropLine(input)
  {
    match Line(input)
    case EndOfInput => Fail(UnexpectedEof, [])
    case LineOf(l, rest) => Ok(Trim(l), rest)
  }

  /** The token read is the trimmed next line: the input splits into a
      line whose trim is the token, and the rest that is left. */
  lemma ValueStringSplits(input: string) returns (l: string)
    requires input != []
    ensures SplitsAt(input, l, ValueString(input).rest) && ValueString(input).value == Trim(l)
  {
    l := Line(input).text;
  }

  /** The token read is the next line with its surrounding whitespace
      removed: a `value<string>` of `l + "\n" + rest` is `Trim(l)`. */
  lemma ValueStringOfLine(l: string, rest: string)
    requires '\n' !in l
    ensures ValueString(l + "\n" + rest) == Ok(Trim(l), rest)
  {
    LineExact(l + "\n" + rest, l, rest);
  }

  /** A value line on its own, terminated, reads as the trimmed line and
      leaves nothing. */
  lemma ValueLine(v: string)
    requires '\n' !in v
    ensures ValueString(v + "\n") == Ok(Trim(v), [])
  {
    assert v + "\n" == v + "\n" + [];
    ValueStringOfLine(v, []);
  }

  lemma ValueStringAppend(s: string, t: string)
    requires Terminated(s) && ValueString(s).Ok?
    ensures Terminated(ValueString(s).rest)
    ensures ValueString(s + t) == Ok(ValueString(s).value, ValueString(s).rest + t)
  {
    LineAppend(s, t);
  }

  //--------------------------------------------------------------------------
  // value<T> for numbers

  /** Generic `value<T>`: read a token, then extract a number from it; a
      failed extraction is "Bad syntax" naming the token. */
  function ValueNum(input: string, ex: Extractor, t: NumType): (r: Parsed<int>)
    ensures r.rest == DropLine(input)
    ensures r.Ok? <==> input != [] && ex(t, ValueString(input).value).Some?
    ensures r.Ok? ==> r.value == ex(t, ValueString(input).value).value
    ensures input != [] && ex(t, ValueString(input).value).None? ==>
              r.error == BadSyntax(ValueString(input).value)
    ensures input == [] ==> r.error == UnexpectedEof
  {
    match ValueString(input)
    case Fail(e, rest) => Fail(e, rest)
    case Ok(k, rest) =>
      match ex(t, k)
      case None => Fail(BadSyntax(k), rest)
      case Some(v) => Ok(v, rest)
  }

  /** A number line on its own, terminated, reads as the number extracted
      from the trimmed line. */
  lemma ValueNumLine(l: string, ex: Extractor, t: NumType, n: int)
    requires '\n' !in l && ex(t, Trim(l)) == Some(n)
    ensures ValueNum(l + "\n", ex, t) == Ok(n, [])
  {
    ValueLine(l);
  }

  /** `value<FIT_UINT8>`: FIT_UINT8 is `unsigned char`, so the extraction
      reads one byte, the first of the trimmed token, and yields it; only
      an empty token fails.  For a token starting outside ASCII that is the
      first byte of its first character's UTF-8 encoding. */
  function ValueChar(input: string): (r: Parsed<int>)
    ensures r.rest == DropLine(input)
    ensures r.Ok? <==> input != [] && ValueString(input).value != []
    ensures r.Ok? ==> 0 <= r.value < 0x100
    ensures r.Ok? ==> r.value == Utf8(ValueString(input).value[0])[0]
    ensures r.Ok? && ValueString(input).value[0] as int < 0x80 ==> r.value == ValueString(input).value[0] as int
    ensures input != [] && ValueString(input).value == [] ==> r.error == BadSyntax([])
  {
    match ValueString(input)
    case Fail(e, rest) => Fail(e, rest)
    case Ok(k, rest) =>
      if k == [] then Fail(BadSyntax(k), rest) else Ok(Utf8(k[0])[0], rest)
  }

  //--------------------------------------------------------------------------
  // value<T>(input, a, b)

  /** `std::min` and `std::max`. */
  function Min(a: int, b: int): int { if b < a then b else a }
  function Max(a: int, b: int): int { if a < b then b else a }

  /** Bounded `value`: normalise the bounds with min/max, read a number,
      and reject it unless it lies between them; the error carries the
      value and the normalised bounds. */
  function ValueInRange(input: string, ex: Extractor, t: NumType, a: int, b: int): (r: Parsed<int>)
    ensures r.rest == DropLine(input)
    ensures r.Ok? <==> ValueNum(input, ex, t).Ok? && Min(a, b) <= ValueNum(input, ex, t).value <= Max(a, b)
    ensures r.Ok? ==> r.value == ValueNum(input, ex, t).value
    ensures ValueNum(input, ex, t).Fail? ==> r.error == ValueNum(input, ex, t).error
    ensures ValueNum(input, ex, t).Ok? && !r.Ok? ==>
              r.error == OutOfRange(ValueNum(input, ex, t).value, Min(a, b), Max(a, b))
  {
    var p := Min(a, b);
    var q := Max(a, b);
    match ValueNum(input, ex, t)
    case Fail(e, rest) => Fail(e, rest)
    case Ok(v, rest) =>
      if v < p || v > q then Fail(OutOfRange(v, p, q), rest) else Ok(v, rest)
  }

  /** The order in which the bounds are given does not matter: the outcome,
      error included, is the same for (a, b) and (b, a). */
  lemma ValueInRangeSymmetric(input: string, ex: Extractor, t: NumType, a: int, b: int)
    ensures ValueInRange(input, ex, t, a, b) == ValueInRange(input, ex, t, b, a)
    ensures ValueInRange(input, ex, t, a, b) == ValueInRange(input, ex, t, Min(a, b), Max(a, b))
  {
  }

  //--------------------------------------------------------------------------
  // value<T>(input, table)

  /** Enumerated `value`: read a token and look it up verbatim; a token that
      is not a key is "Invalid enum value" naming it.  Either way one line
      is consumed. */
  function ValueEnum<T>(input: string, table: map<string, T>): (r: Parsed<T>)
    ensures r.rest == DropLine(input)
    ensures r.Ok? <==> input != [] && ValueString(input).value in table
    ensures r.Ok? ==> r.value == table[ValueString(input).value]
    ensures input != [] && ValueString(input).value !in table ==>
              r.error == InvalidEnum(ValueString(input).value)
    ensures input == [] ==> r.error == UnexpectedEof
  {
    match ValueString(input)
    case Fail(e, rest) => Fail(e, rest)
    case Ok(token, rest) =>
      if token in table then Ok(table[token], rest) else Fail(InvalidEnum(token), rest)
  }

  //--------------------------------------------------------------------------
  // match

  /** `match(token, actions)`: select the action keyed by the token; an
      unknown token is "Bad token" naming it.  The action itself is run by
      the caller on the returned key. */
  function MatchToken<A>(token: string, table: map<string, A>): (r: Result<A>)
    ensures r.Success? <==> token in table
    ensures r.Success? ==> r.value == table[token]
    ensures r.Failure? ==> r.error == BadToken(token)
  {
    if token in table then Success(table[token]) else Failure(BadToken(token))
  }

  /** `match(input, actions)`: dispatch on the next trimmed token. */
  function Match<A>(input: string, table: map<string, A>): (r: Parsed<A>)
    ensures r.rest == DropLine(input)
    ensures r.Ok? <==> input != [] && ValueString(input).value in table
    ensures r.Ok? ==> r.value == table[ValueString(input).value]
    ensures input != [] && ValueString(input).value !in table ==>
              r.error == BadToken(ValueString(input).value)
    ensures input == [] ==> r.error == UnexpectedEof
  {
    match ValueString(input)
    case Fail(e, rest) => Fail(e, rest)
    case Ok(token, rest) =>
      match MatchToken(token, table)
      case Success(a) => Ok(a, rest)
      case Failure(e) => Fail(e, rest)
  }

  /** With an empty table every call fails, a blank line included, and each
      call still consumes one line. */
  lemma MatchEmptyTable<A>(input: string, table: map<string, A>)
    requires table == map[]
    ensures Match(input, table).Fail?
    ensures Match(input, table).rest == DropLine(input)
    ensures input != [] ==> Match(input, table).error == BadToken(ValueString(input).value)
  {
  }

  /** A value line on its own that trims to a key of the table reads as
      the key's value and leaves nothing. */
  lemma ValueEnumLine<T>(v: string, table: map<string, T>, c: T)
    requires '\n' !in v && Trim(v) in table && table[Trim(v)] == c
    ensures ValueEnum(v + "\n", table) == Ok(c, [])
  {
    ValueLine(v);
  }

  lemma MatchAppend<A>(s: string, t: string, table: map<string, A>)
    requires Terminated(s) && Match(s, table).Ok?
    ensures Terminated(Match(s, table).rest)
    ensures Match(s + t, table) == Ok(Match(s, table).value, Match(s, table).rest + t)
  {
    ValueStringAppend(s, t);
  }

  lemma ValueNumAppend(s: string, t: string, ex: Extractor, ty: NumType)
    requires Terminated(s) && ValueNum(s, ex, ty).Ok?
    ensures Terminated(ValueNum(s, ex, ty).rest)
    ensures ValueNum(s + t, ex, ty) == Ok(ValueNum(s, ex, ty).value, ValueNum(s, ex, ty).rest + t)
  {
    ValueStringAppend(s, t);
  }

  /** The outcome of a numeric read of a complete line, rest aside, does
      not depend on what follows the line. */
  lemma ValueNumAppendOutcome(s: string, t: string, ex: Extractor, ty: NumType)
    requires s != [] && Terminated(s)
    ensures ValueNum(s + t, ex, ty).ToResult() == ValueNum(s, ex, ty).ToResult()
  {
    ValueStringAppend(s, t);
    assert ValueString(s + t).value == ValueString(s).value;
  }

  lemma ValueCharAppend(s: string, t: string)
    requires Terminated(s) && ValueChar(s).Ok?
    ensures Terminated(ValueChar(s).rest)
    ensures ValueChar(s + t) == Ok(ValueChar(s).value, ValueChar(s).rest + t)
  {
    ValueStringAppend(s, t);
  }

  lemma ValueInRangeAppend(s: string, t: string, ex: Extractor, ty: NumType, a: int, b: int)
    requires Terminated(s) && ValueInRange(s, ex, ty, a, b).Ok?
    ensures Terminated(ValueInRange(s, ex, ty, a, b).rest)
    ensures ValueInRange(s + t, ex, ty, a, b) == Ok(ValueInRange(s, ex, ty, a, b).value, ValueInRange(s, ex, ty, a, b).rest + t)
  {
    ValueNumAppend(s, t, ex, ty);
  }

  lemma ValueEnumAppend<T>(s: string, t: string, table: map<string, T>)
    requires Terminated(s) && ValueEnum(s, table).Ok?
    ensures Terminated(ValueEnum(s, table).rest)
    ensures ValueEnum(s + t, table) == Ok(ValueEnum(s, table).value, ValueEnum(s, table).rest + t)
  {
    ValueStringAppend(s, t);
  }
}

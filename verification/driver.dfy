/** The driver `xil2fit`: read the input line by line; each `begin` line
    is followed by a record kind and that record, which is parsed and
    handed to the FIT encoder.

    The encoder is modelled by the sequence of records written to it.
    When anything fails the translator stops with the error, and the
    outcome reports only that error.  A `workout_step` record never finishes parsing: its
    field loop is an empty endless loop.

    The loop is defined for any record parser `parse` that consumes what
    it reads; `Records` is the parser of the program, made of the three
    record parsers, and `Xil2Fit` runs the loop with it.
 */
module Driver {
  import opened Common
  import opened Text
  import opened Values
  import opened Fields
  import opened Messages

  /** A message handed to the encoder. */
  datatype Record =
    | CreatorRecord(creator: FileCreator)
    | FileIdRecord(fileId: FileId)
    | WorkoutRecord(workout: Workout)

  /** The record kinds whose parser returns. */
  datatype RecordKind = FileCreatorKind | FileIdKind | WorkoutKind

  /** The record kinds that may follow `begin`. */
  datatype Block = RecordBlock(kind: RecordKind) | WorkoutStepBlock

  const BLOCKS: map<string, Block> := map[
    "file_creator" := RecordBlock(FileCreatorKind),
    "file_id"      := RecordBlock(FileIdKind),
    "workout"      := RecordBlock(WorkoutKind),
    "workout_step" := WorkoutStepBlock
  ]

  lemma BlockKinds()
    ensures "file_creator" in BLOCKS && BLOCKS["file_creator"] == RecordBlock(FileCreatorKind)
    ensures "file_id" in BLOCKS && BLOCKS["file_id"] == RecordBlock(FileIdKind)
    ensures "workout" in BLOCKS && BLOCKS["workout"] == RecordBlock(WorkoutKind)
    ensures "workout_step" in BLOCKS && BLOCKS["workout_step"] == WorkoutStepBlock
  {
  }

  /** The table of the top-level `match`: only `begin` is accepted. */
  const TOP: map<string, ()> := map["begin" := ()]

  /** How a run ends: every record converted; stopped by an error; or
      stuck forever in the workout_step parser after writing `written`. */
  datatype Outcome =
    | Converted(records: seq<Record>)
    | Aborted(error: Error)
    | Diverges(written: seq<Record>)

  //--------------------------------------------------------------------------
  // The record parsers

  /** Parses the record of a kind, as the matching `value<...Mesg>`. */
  function ParseRecord(input: string, ex: Extractor, now: int, k: RecordKind): (r: Parsed<Record>)
    ensures IsSuffixOf(r.rest, input)
    ensures r.Ok? ==> |r.rest| < |input|
  {
    match k
    case FileCreatorKind => ParseFileCreator(input, ex).Map(c => CreatorRecord(c))
    case FileIdKind => ParseFileId(input, ex, now).Map(d => FileIdRecord(d))
    case WorkoutKind => ParseWorkout(input, ex).Map(w => WorkoutRecord(w))
  }

  /** What the loop needs of a record parser. */
  type RecordParser = (string, RecordKind) -> Parsed<Record>

  /** A successful parse consumes input and leaves the rest of it. */
  ghost predicate Advances(parse: RecordParser) {
    forall s, k :: parse(s, k).Ok? ==> IsSuffixOf(parse(s, k).rest, s) && |parse(s, k).rest| < |s|
  }

  /** Parsing complete lines `s` gives the same record whether or not `t`
      follows, and leaves `t` after what it left. */
  ghost predicate ResumesAt(parse: RecordParser, s: string, t: string, k: RecordKind) {
    Terminated(s) && parse(s, k).Ok? ==>
      Terminated(parse(s, k).rest) && parse(s + t, k) == Ok(parse(s, k).value, parse(s, k).rest + t)
  }

  ghost predicate Resumes(parse: RecordParser) {
    forall s, t, k :: ResumesAt(parse, s, t, k)
  }

  /** The record parsers of the program. */
  function Records(ex: Extractor, now: int): RecordParser {
    (s, k) => ParseRecord(s, ex, now, k)
  }

  lemma RecordsAdvance(ex: Extractor, now: int)
    ensures Advances(Records(ex, now))
  {
    var parse := Records(ex, now);
    forall s, k ensures parse(s, k).Ok? ==> IsSuffixOf(parse(s, k).rest, s) && |parse(s, k).rest| < |s| {
      assert parse(s, k) == ParseRecord(s, ex, now, k);
    }
  }

  /** Parsing a record is unaffected by the input after it. */
  lemma ParseRecordAppend(s: string, t: string, ex: Extractor, now: int, k: RecordKind)
    requires Terminated(s) && ParseRecord(s, ex, now, k).Ok?
    ensures Terminated(ParseRecord(s, ex, now, k).rest)
    ensures ParseRecord(s + t, ex, now, k)
            == Ok(ParseRecord(s, ex, now, k).value, ParseRecord(s, ex, now, k).rest + t)
  {
    match k
    case FileCreatorKind =>
      CreatorReaderFacts(ex);
      FieldLoopAppend(s, t, CREATOR_FIELDS, CreatorReader(ex), ApplyCreator, "file_creator", FILE_CREATOR_DEFAULTS);
    case FileIdKind =>
      FileIdReaderFacts(ex);
      FieldLoopAppend(s, t, FILE_ID_FIELDS, FileIdReader(ex), ApplyFileId, "file_id", FileIdDefaults(now));
    case WorkoutKind =>
      WorkoutReaderFacts(ex);
      FieldLoopAppend(s, t, WORKOUT_FIELDS, WorkoutReader(ex), ApplyWorkout, "workout", WORKOUT_DEFAULTS);
  }

  lemma RecordsResume(ex: Extractor, now: int)
    ensures Resumes(Records(ex, now))
  {
    var parse := Records(ex, now);
    forall s, t, k ensures ResumesAt(parse, s, t, k) {
      assert parse(s, k) == ParseRecord(s, ex, now, k) && parse(s + t, k) == ParseRecord(s + t, ex, now, k);
      if Terminated(s) && parse(s, k).Ok? {
        ParseRecordAppend(s, t, ex, now, k);
      }
    }
  }

  //--------------------------------------------------------------------------
  // The loop

  /** `rs` written before the run went on to end as `o`. */
  function PrependAll(rs: seq<Record>, o: Outcome): (r: Outcome)
    ensures rs == [] ==> r == o
  {
    assert rs == [] ==> forall xs: seq<Record> :: rs + xs == xs;
    match o
    case Converted(xs) => Converted(rs + xs)
    case Aborted(e) => Aborted(e)
    case Diverges(xs) => Diverges(rs + xs)
  }

  /** What one turn of the top-level loop does: the input is exhausted;
      the run stops with an error; it hangs in the workout_step parser; or
      a record is read and the loop goes on with the input after it. */
  datatype Turn = Done | Stop(error: Error) | Hang | Next(record: Record, rest: string)

  /** One turn of the loop.  The top-level token is the raw line (it is not
      trimmed), whereas the record kind after it is read with `match`,
      which trims. */
  function Step(input: string, parse: RecordParser): (r: Turn)
    requires Advances(parse)
    ensures r.Done? <==> input == []
    ensures Line(input).LineOf? && Line(input).text != "begin" ==> r == Stop(BadToken(Line(input).text))
    ensures Line(input) == LineOf("begin", []) ==> r == Stop(UnexpectedEof)
    ensures Line(input).LineOf? && Line(input).text == "begin" && Line(input).rest != []
            && ValueString(Line(input).rest).value !in BLOCKS ==>
              r == Stop(BadToken(ValueString(Line(input).rest).value))
    ensures r.Next? ==> IsSuffixOf(r.rest, input) && |r.rest| < |input|
  {
    match Line(input)
    case EndOfInput => Done
    case LineOf(l, rest) =>
      match MatchToken(l, TOP)
      case Failure(e) => Stop(e)
      case Success(_) =>
        match Match(rest, BLOCKS)
        case Fail(e, _) => Stop(e)
        case Ok(b, rest2) =>
          match b
          case WorkoutStepBlock => Hang
          case RecordBlock(k) =>
            match parse(rest2, k)
            case Fail(e, _) => Stop(e)
            case Ok(r, rest3) =>
              SuffixTrans(rest3, rest2, rest);
              SuffixTrans(rest3, rest, input);
              Next(r, rest3)
  }

  /** The run of `xil2fit` on the whole input, as a reference definition:
      turns of the loop until one of them does not read a record. */
  function Convert(input: string, parse: RecordParser): Outcome
    requires Advances(parse)
    decreases |input|
  {
    match Step(input, parse)
    case Done => Converted([])
    case Stop(e) => Aborted(e)
    case Hang => Diverges([])
    case Next(r, rest) => PrependAll([r], Convert(rest, parse))
  }

  /** `xil2fit`: the loop over top-level lines with the program's record
      parsers. */
  method Xil2Fit(input: string, ex: Extractor, now: int) returns (o: Outcome)
    ensures (RecordsAdvance(ex, now); o == Convert(input, Records(ex, now)))
  {
    RecordsAdvance(ex, now);
    o := Run(input, Records(ex, now));
  }

  /** The loop itself, writing each parsed record to the encoder as soon as
      it is read. */
  method Run(input: string, parse: RecordParser) returns (o: Outcome)
    requires Advances(parse)
    ensures o == Convert(input, parse)
  {
    var cursor := input;
    var written: seq<Record> := [];
    while cursor != []
      invariant Convert(input, parse) == PrependAll(written, Convert(cursor, parse))
      decreases |cursor|
    {
      var t := ReadTurn(cursor, parse);
      TurnKeepsRun(input, cursor, written, t, parse);
      if t.Next? {
        written := written + [t.record];
        cursor := t.rest;
      } else if t.Stop? {
        return Aborted(t.error);
      } else {
        return Diverges(written);
      }
    }
    RunEnds(input, written, parse);
    return Converted(written);
  }

  /** The body of the loop for a non-empty input: match the line against
      `begin`, then the record kind, then parse the record.  The turn is
      the first turn of the reference run from `cursor`: the record it
      reads is the first one the run writes, before the run from the input
      after it; an error or a hang is how the run ends. */
  method ReadTurn(cursor: string, parse: RecordParser) returns (t: Turn)
    requires Advances(parse)
    requires cursor != []
    ensures !t.Done?
    ensures Line(cursor).text != "begin" ==> t == Stop(BadToken(Line(cursor).text))
    ensures t.Next? ==> IsSuffixOf(t.rest, cursor) && |t.rest| < |cursor|
    ensures t.Next? ==> Convert(cursor, parse) == PrependAll([t.record], Convert(t.rest, parse))
    ensures t.Stop? ==> Convert(cursor, parse) == Aborted(t.error)
    ensures t.Hang? ==> Convert(cursor, parse) == Diverges([])
  {
    ConvertOnTurn(cursor, parse);
    var l, rest := Line(cursor).text, Line(cursor).rest;
    if l !in TOP {
      return Stop(BadToken(l));
    }
    var m := Match(rest, BLOCKS);
    if m.Fail? {
      return Stop(m.error);
    }
    if m.value == WorkoutStepBlock {
      return Hang;
    }
    var p := parse(m.rest, m.value.kind);
    if p.Fail? {
      return Stop(p.error);
    }
    SuffixTrans(p.rest, m.rest, rest);
    SuffixTrans(p.rest, rest, cursor);
    return Next(p.value, p.rest);
  }

  /** How the run goes on after one turn of the loop on a non-empty input. */
  lemma ConvertOnTurn(c: string, parse: RecordParser)
    requires Advances(parse)
    requires c != []
    ensures Step(c, parse).Next? ==>
              Convert(c, parse) == PrependAll([Step(c, parse).record], Convert(Step(c, parse).rest, parse))
    ensures Step(c, parse).Stop? ==> Convert(c, parse) == Aborted(Step(c, parse).error)
    ensures Step(c, parse).Hang? ==> Convert(c, parse) == Diverges([])
  {
  }

  /** A turn that is the first turn of the run from `cursor` keeps the
      invariant of the loop, or decides the outcome. */
  lemma TurnKeepsRun(input: string, cursor: string, written: seq<Record>, t: Turn, parse: RecordParser)
    requires Advances(parse)
    requires Convert(input, parse) == PrependAll(written, Convert(cursor, parse))
    requires t.Next? ==> Convert(cursor, parse) == PrependAll([t.record], Convert(t.rest, parse))
    requires t.Stop? ==> Convert(cursor, parse) == Aborted(t.error)
    requires t.Hang? ==> Convert(cursor, parse) == Diverges([])
    ensures t.Next? ==> Convert(input, parse) == PrependAll(written + [t.record], Convert(t.rest, parse))
    ensures t.Stop? ==> Convert(input, parse) == Aborted(t.error)
    ensures t.Hang? ==> Convert(input, parse) == Diverges(written)
  {
    match t
    case Next(r, rest) => PrependAllSnoc(written, [r], Convert(rest, parse));
    case Hang => assert written + [] == written;
    case _ =>
  }

  /** The loop ends on the empty input with everything written. */
  lemma RunEnds(input: string, written: seq<Record>, parse: RecordParser)
    requires Advances(parse)
    requires Convert(input, parse) == PrependAll(written, Convert([], parse))
    ensures Convert(input, parse) == Converted(written)
  {
    assert Convert([], parse) == Converted([]);
    assert written + [] == written;
  }

  /** Prepending in two steps is prepending the concatenation. */
  lemma PrependAllSnoc(rs: seq<Record>, xs: seq<Record>, o: Outcome)
    ensures PrependAll(rs, PrependAll(xs, o)) == PrependAll(rs + xs, o)
  {
    match o
    case Converted(ys) => assert rs + (xs + ys) == (rs + xs) + ys;
    case Aborted(_) =>
    case Diverges(ys) => assert rs + (xs + ys) == (rs + xs) + ys;
  }

  //--------------------------------------------------------------------------
  // Properties of a run

  /** The run converts nothing and succeeds exactly on the empty input:
      every other input either writes a record or stops. */
  lemma ConvertEmpty(input: string, parse: RecordParser)
    requires Advances(parse)
    ensures Convert(input, parse) == Converted([]) <==> input == []
  {
    if input != [] {
      ConvertOnTurn(input, parse);
      var t := Step(input, parse);
      if t.Next? {
        match Convert(t.rest, parse)
        case Converted(xs) => assert |[t.record] + xs| > 0;
        case Aborted(_) =>
        case Diverges(_) =>
      }
    }
  }

  /** A first line other than `begin`, taken verbatim, aborts the run with
      "Bad token" naming that line. */
  lemma ConvertNotBegin(input: string, parse: RecordParser)
    requires Advances(parse)
    requires Line(input).LineOf? && Line(input).text != "begin"
    ensures Convert(input, parse) == Aborted(BadToken(Line(input).text))
  {
    ConvertOnTurn(input, parse);
  }

  /** A turn that reads a record from complete lines is unaffected by the
      input after them. */
  lemma StepAppend(a: string, b: string, parse: RecordParser)
    requires Advances(parse) && Resumes(parse)
    requires Terminated(a) && Step(a, parse).Next?
    ensures Terminated(Step(a, parse).rest)
    ensures Step(a + b, parse) == Next(Step(a, parse).record, Step(a, parse).rest + b)
  {
    LineAppend(a, b);
    var rest := Line(a).rest;
    MatchAppend(rest, b, BLOCKS);
    var m := Match(rest, BLOCKS);
    assert ResumesAt(parse, m.rest, b, m.value.kind);
  }

  /** The first turn of a complete input that converts reads a record,
      and reads the same record when more input follows. */
  lemma FirstRecord(a: string, b: string, parse: RecordParser) returns (r: Record, rest: string)
    requires Advances(parse) && Resumes(parse)
    requires a != [] && Terminated(a) && Convert(a, parse).Converted?
    ensures Terminated(rest) && |rest| < |a|
    ensures Convert(a, parse) == PrependAll([r], Convert(rest, parse))
    ensures Convert(a + b, parse) == PrependAll([r], Convert(rest + b, parse))
  {
    var t := Step(a, parse);
    ConvertOnTurn(a, parse);
    r, rest := t.record, t.rest;
    StepAppend(a, b, parse);
    ConvertOnTurn(a + b, parse);
  }

  /** Records are converted in input order and independently of one
      another: a complete input `a` that converts, followed by more input
      `b`, converts to `a`'s records followed by the outcome of `b`. */
  lemma {:induction false} ConvertConcat(a: string, b: string, parse: RecordParser)
    requires Advances(parse) && Resumes(parse)
    requires Terminated(a) && Convert(a, parse).Converted?
    ensures Convert(a + b, parse) == PrependAll(Convert(a, parse).records, Convert(b, parse))
    decreases |a|
  {
    if a == [] {
      assert a + b == b;
    } else {
      var r, rest := FirstRecord(a, b, parse);
      ConvertConcat(rest, b, parse);
      PrependAllSnoc([r], Convert(rest, parse).records, Convert(b, parse));
    }
  }

  /** The same for the program's record parsers. */
  lemma Xil2FitConcat(a: string, b: string, ex: Extractor, now: int)
    requires Terminated(a)
    requires (RecordsAdvance(ex, now); Convert(a, Records(ex, now)).Converted?)
    ensures (RecordsAdvance(ex, now);
             Convert(a + b, Records(ex, now)) == PrependAll(Convert(a, Records(ex, now)).records, Convert(b, Records(ex, now))))
  {
    RecordsResume(ex, now);
    ConvertConcat(a, b, Records(ex, now));
  }

  //--------------------------------------------------------------------------
  // Blocks

  /** The turn over a block followed by `rest` is the record parsed from
      the body. */
  lemma StepBlockStart(k: string, body: string, rest: string, parse: RecordParser, kind: RecordKind)
    requires Advances(parse)
    requires '\n' !in k && Trim(k) in BLOCKS && BLOCKS[Trim(k)] == RecordBlock(kind)
    ensures Step("begin\n" + (k + "\n" + body) + rest, parse)
            == var p := parse(body + rest, kind);
               if p.Fail? then Stop(p.error) else Next(p.value, p.rest)
  {
    var s := "begin\n" + (k + "\n" + body) + rest;
    assert s == "begin\n" + (k + "\n" + (body + rest));
    BeginLine(k + "\n" + (body + rest));
    ValueStringOfLine(k, body + rest);
    assert Match(k + "\n" + (body + rest), BLOCKS) == Ok(RecordBlock(kind), body + rest);
  }

  /** The run over a block followed by `rest` reads the block's first two
      lines as `begin` and the kind, then parses the record from the body. */
  lemma ConvertBlockStart(k: string, body: string, rest: string, parse: RecordParser, kind: RecordKind)
    requires Advances(parse)
    requires '\n' !in k && Trim(k) in BLOCKS && BLOCKS[Trim(k)] == RecordBlock(kind)
    ensures Convert("begin\n" + (k + "\n" + body) + rest, parse)
            == var p := parse(body + rest, kind);
               if p.Fail? then Aborted(p.error) else PrependAll([p.value], Convert(p.rest, parse))
  {
    StepBlockStart(k, body, rest, parse, kind);
    ConvertOnTurn("begin\n" + (k + "\n" + body) + rest, parse);
  }

  /** A block whose body parses as `r` and leaves `rest` writes `r`, and the
      run goes on with `rest`. */
  lemma ConvertBlock(k: string, body: string, rest: string, parse: RecordParser, kind: RecordKind, r: Record)
    requires Advances(parse)
    requires '\n' !in k && Trim(k) in BLOCKS && BLOCKS[Trim(k)] == RecordBlock(kind)
    requires parse(body + rest, kind) == Ok(r, rest)
    ensures Convert("begin\n" + (k + "\n" + body) + rest, parse) == PrependAll([r], Convert(rest, parse))
  {
    ConvertBlockStart(k, body, rest, parse, kind);
  }

  /** The same for the program's record parsers: a block whose record
      parses as `r` before `rest` writes `r`, and the run goes on with
      `rest`. */
  lemma Xil2FitBlock(k: string, body: string, rest: string, ex: Extractor, now: int, kind: RecordKind, r: Record)
    requires '\n' !in k && Trim(k) in BLOCKS && BLOCKS[Trim(k)] == RecordBlock(kind)
    requires ParseRecord(body + rest, ex, now, kind) == Ok(r, rest)
    ensures (RecordsAdvance(ex, now);
             Convert("begin\n" + (k + "\n" + body) + rest, Records(ex, now))
             == PrependAll([r], Convert(rest, Records(ex, now))))
  {
    RecordsAdvance(ex, now);
    assert Records(ex, now)(body + rest, kind) == ParseRecord(body + rest, ex, now, kind);
    ConvertBlock(k, body, rest, Records(ex, now), kind, r);
  }

  /** A workout_step block never finishes: the run diverges after the
      records written before it, whatever follows. */
  lemma ConvertWorkoutStep(k: string, rest: string, parse: RecordParser)
    requires Advances(parse)
    requires '\n' !in k && Trim(k) == "workout_step"
    ensures Convert("begin\n" + (k + "\n" + rest), parse) == Diverges([])
  {
    BeginLine(k + "\n" + rest);
    ValueStringOfLine(k, rest);
    BlockKinds();
    assert Match(k + "\n" + rest, BLOCKS) == Ok(WorkoutStepBlock, rest);
    ConvertOnTurn("begin\n" + (k + "\n" + rest), parse);
  }

  /** `begin` followed by a record kind the driver does not know aborts the
      run with "Bad token" naming the trimmed kind. */
  lemma ConvertUnknownKind(k: string, rest: string, parse: RecordParser)
    requires Advances(parse)
    requires '\n' !in k && Trim(k) !in BLOCKS
    ensures Convert("begin\n" + (k + "\n" + rest), parse) == Aborted(BadToken(Trim(k)))
  {
    BeginLine(k + "\n" + rest);
    ValueStringOfLine(k, rest);
    ConvertOnTurn("begin\n" + (k + "\n" + rest), parse);
  }

  /** `begin` as the last line, terminated or not, aborts the run with
      "Unexpected end of file". */
  lemma ConvertBeginAtEnd(parse: RecordParser)
    requires Advances(parse)
    ensures Convert("begin\n", parse) == Aborted(UnexpectedEof)
    ensures Convert("begin", parse) == Aborted(UnexpectedEof)
  {
    BeginLine([]);
    assert "begin\n" + [] == "begin\n";
    ConvertOnTurn("begin\n", parse);
    LineExact("begin", "begin", []);
    ConvertOnTurn("begin", parse);
  }

  /** The first line of a block is `begin`. */
  lemma BeginLine(rest: string)
    ensures Line("begin\n" + rest) == LineOf("begin", rest)
    ensures MatchToken("begin", TOP) == Success(())
  {
    assert "begin\n" + rest == "begin" + "\n" + rest;
    LineExact("begin\n" + rest, "begin", rest);
  }
}

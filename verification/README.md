# xil2fit in Dafny

A model of `xil2fit`, the text-to-FIT translator of `il2fit/xil2fit.cpp`.
The translator reads a line-oriented description of a workout and builds
FIT messages, which it hands to the FIT SDK encoder in input order. The
input has this shape:

```
begin
workout
sport
running
num_valid_steps
3
end
workout
```

Each field name is on one line and its value is on the next. A record
ends with the two lines `end` and the record kind.

The model has four layers, one module each, plus the unit cases:

- `Text` (text.dfy): `trim` and `line`. The input stream is the
  string of characters it still holds.
- `Values` (values.dfy): the `value<...>` readers (string, numeric,
  bounded, enumerated) and `match`. Each reader returns
  `Parsed<T> = Ok(value, rest) | Fail(error, rest)`. The readers report
  the stream position on failure as well, so "every reader consumes
  exactly one line" can be stated.
- `Fields` (fields.dfy): the loop shared by the three record parsers.
  It reads a field name, dispatches on it, reads and stores the value,
  and stops on `end <kind>`. It is generic in the field table, the
  value reader and the setter.
- `Messages` (messages.dfy): `value<fit::FileCreatorMesg>`,
  `value<fit::FileIdMesg>` and `value<fit::WorkoutMesg>`. Each one is a
  record datatype, its defaults, its field table, a reader and a setter.
- `Driver` (driver.dfy): the `xil2fit` loop. `Convert` is the reference
  definition of a whole run. `Xil2Fit` is the loop as a method, proved
  equal to `Convert`.
  - A run either writes all its records (`Converted`), stops with the
    first error (`Aborted`), or hangs forever in the `workout_step`
    parser (`Diverges`).
  - The loop is written for any record parser that consumes input, and
    `Records` is the program's own parser.
- `CatchCases` (tests.dfy): the Catch unit cases of the source, stated
  as lemmas.

The error kinds carry what the source's messages carry:
- `UnexpectedEof`;
- `BadSyntax(token)`;
- `OutOfRange(value, lo, hi)`;
- `InvalidEnum(token)`;
- `BadToken(token)`.

Two things are parameters rather than modelled:
- Numeric extraction (`istringstream >> x`) is the parameter
  `ex: (NumType, string) -> Option<int>`.
- The wall clock read by `time(0)` is the parameter `now`.

## Model

| member | source | states |
|---|---|---|
| Text.SkipSpace | il2fit/xil2fit.cpp:61-62 | the leading whitespace removed is all blank and stops at the first non-blank character |
| Text.SkipSpaceBack | il2fit/xil2fit.cpp:64-65 | the trailing whitespace removed is all blank and stops after the last non-blank character |
| Text.Trim | il2fit/xil2fit.cpp:56-67 | the result has no whitespace at either end |
| Text.TrimSpan | il2fit/xil2fit.cpp:56-67 | the result is a contiguous part of the input between an all-blank prefix and an all-blank suffix |
| Text.TrimEmpty | il2fit/xil2fit.cpp:56-67 | trimming gives "" exactly when the input is empty or all whitespace |
| Text.TrimTrimmed | il2fit/xil2fit.cpp:56-67 | a string without whitespace at either end is its own trim |
| Text.TrimIdempotent | il2fit/xil2fit.cpp:56-67 | trimming twice is trimming once |
| Text.TrimUnique | il2fit/xil2fit.cpp:56-67 | any blank-bounded part with no whitespace at its ends is the trim, so the trim is determined by its input |
| Text.NewlineIndex | il2fit/xil2fit.cpp:88 | the position found is the first '\n', or the end when there is none |
| Text.Line | il2fit/xil2fit.cpp:84-96 | no line exactly at the end of the input; otherwise the line is the text before the next '\n' (or a final unterminated, non-empty line) and the rest is what follows it |
| Text.LineExact | il2fit/xil2fit.cpp:84-96 | `line` returns a given line and rest if and only if the input splits that way |
| Text.LineAppend | il2fit/xil2fit.cpp:84-96 | appending input after a complete line does not change that line and only lengthens the rest |
| Text.AllLinesNoNewline | il2fit/xil2fit.cpp:84-96 | no line that repeated calls return contains '\n' |
| Text.AllLinesUnlines | il2fit/xil2fit.cpp:84-96 | repeated calls reproduce the input split at '\n': writing the lines back with terminators gives the input (plus a '\n' after an unterminated last line) |
| Text.UnlinesAllLines | il2fit/xil2fit.cpp:84-96 | the lines of a text written from '\n'-free lines are exactly those lines |
| Text.Utf8 | il2fit/xil2fit.cpp:84-96 | the UTF-8 encoding of a character is 1 to 4 bytes: a single byte exactly for ASCII, otherwise a lead byte 0xC2..0xF4 followed by continuation bytes 0x80..0xBF |
| Text.Utf8RoundTrip | il2fit/xil2fit.cpp:84-96 | decoding the bytes of a character gives that character back, so the bytes determine the character |
| Text.Utf8Examples | il2fit/xil2fit.cpp:125-137 | 'a' is the byte 0x61, U+00E9 is 0xC3 0xA9 and U+20AC is 0xE2 0x82 0xAC |
| Values.DropLine | il2fit/xil2fit.cpp:84-96 | skipping one line leaves a suffix of the input, a strictly shorter one when the input is not empty |
| Values.DropLineAppend | il2fit/xil2fit.cpp:84-96 | skipping a complete line is unaffected by the input after it |
| Values.ValueString | il2fit/xil2fit.cpp:105-114 | fails with "Unexpected end of file" exactly on the exhausted input; otherwise it consumes exactly one line |
| Values.ValueStringSplits | il2fit/xil2fit.cpp:105-114 | the token read is the trim of the next line, and the rest is what follows that line |
| Values.ValueStringOfLine | il2fit/xil2fit.cpp:105-114 | on `l + "\n" + rest` the token is `trim(l)` and `rest` is left |
| Values.ValueLine | il2fit/xil2fit.cpp:105-114 | a value line on its own reads as its trim and leaves nothing |
| Values.ValueStringAppend | il2fit/xil2fit.cpp:105-114 | reading from complete lines is unaffected by the input after them |
| Values.ValueNum | il2fit/xil2fit.cpp:125-137 | succeeds exactly when a token is read and extraction succeeds; the value is the extracted one; a failed extraction is "Bad syntax" naming the token; one line is consumed |
| Values.ValueNumLine | il2fit/xil2fit.cpp:125-137 | a number line on its own reads as the number extracted from its trim |
| Values.ValueNumAppendOutcome | il2fit/xil2fit.cpp:125-137 | the outcome of a numeric read of a complete line, success or error, does not depend on the input after that line |
| Values.ValueNumAppend | il2fit/xil2fit.cpp:125-137 | a number read from complete lines is unaffected by the input after them |
| Values.ValueChar | il2fit/xil2fit.cpp:125-137 | the FIT_UINT8 instance reads one byte: the first byte of the UTF-8 encoding of the token's first character (that character's code when it is ASCII), always below 256; it fails only on an empty token |
| Values.ValueCharAppend | il2fit/xil2fit.cpp:125-137 | a byte read from complete lines is unaffected by the input after them |
| Values.ValueInRange | il2fit/xil2fit.cpp:142-154 | succeeds exactly when the number read lies in [min(a,b), max(a,b)], returning it; otherwise it reports the number's own error, or "out of range" with the value and the normalised bounds |
| Values.ValueInRangeSymmetric | il2fit/xil2fit.cpp:142-154 | the outcome for bounds (a, b) equals that for (b, a) and for the normalised bounds, error included |
| Values.ValueInRangeAppend | il2fit/xil2fit.cpp:142-154 | a bounded read from complete lines is unaffected by the input after them |
| Values.ValueEnum | il2fit/xil2fit.cpp:159-169 | returns `table[token]` exactly when the trimmed token is a key; otherwise "Invalid enum value" naming the token (or end of file); one line is consumed either way |
| Values.ValueEnumLine | il2fit/xil2fit.cpp:159-169 | a value line whose trim is a key reads as that key's entry |
| Values.ValueEnumAppend | il2fit/xil2fit.cpp:159-169 | an enumerated read from complete lines is unaffected by the input after them |
| Values.MatchToken | il2fit/xil2fit.cpp:174-183 | selects the action keyed by the token exactly when it is a key; an unknown token is "Bad token" naming it |
| Values.Match | il2fit/xil2fit.cpp:185-190 | dispatches on the next trimmed token: the key's action exactly when it is a key, "Bad token" otherwise, "Unexpected end of file" at the end; one line is consumed |
| Values.MatchEmptyTable | il2fit/xil2fit.cpp:185-190 | with an empty table every call fails, a blank line included, and each call consumes one line |
| Values.MatchAppend | il2fit/xil2fit.cpp:185-190 | dispatching on a complete line is unaffected by the input after it |
| Fields.FieldLoop | il2fit/xil2fit.cpp:201-212 | the loop leaves a suffix of its input, a strictly shorter one on success |
| Fields.FieldLoopReadsBody | il2fit/xil2fit.cpp:201-212 | a body of spelled fields followed by `end <kind>` gives the start record with the settings stored in input order, and leaves the input after the marker unread |
| Fields.FieldLoopReadsFirst | il2fit/xil2fit.cpp:201-206 | the first spelled field of a body is read and stored, and the loop goes on after it |
| Fields.FieldLoopReadsField | il2fit/xil2fit.cpp:201-206 | a field name line and its value line store that value and continue after them |
| Fields.FieldLoopReadsMarker | il2fit/xil2fit.cpp:207-210 | the end marker returns the record built so far and leaves what follows the marker |
| Fields.FieldLoopAppend | il2fit/xil2fit.cpp:201-212 | a record parsed from complete lines is parsed the same when more input follows |
| Fields.FieldLoopEndsOnMarker | il2fit/xil2fit.cpp:207-210 | the loop succeeds only on an end marker: what it leaves is what follows `end <kind>` somewhere in the input |
| Fields.FieldLoopOnEnd | il2fit/xil2fit.cpp:207-210 | a successful loop that starts on `end` returns the record unchanged, having read the marker |
| Fields.FieldLoopOnField | il2fit/xil2fit.cpp:201-206 | a successful loop that starts on a field name read an accepted value and went on with it stored |
| Fields.FieldLoopPreserves | il2fit/xil2fit.cpp:201-212 | a property that the start record has and that every accepted setting keeps holds of the record returned |
| Fields.FieldLoopBadField | il2fit/xil2fit.cpp:201-212 | an unknown field name is "Bad token" naming it, and end of input is "Unexpected end of file" |
| Fields.FieldLoopBadKind | il2fit/xil2fit.cpp:207-210 | after `end`, a token other than the record kind is "Bad token" naming it, and a missing one is "Unexpected end of file" |
| Fields.FieldLoopBadValue | il2fit/xil2fit.cpp:201-206 | a value the field's reader rejects stops the loop with that reader's error, the value line consumed |
| Fields.FieldLoopTruncated | il2fit/xil2fit.cpp:201-212 | a spelled body that ends before its end marker fails with "Unexpected end of file" |
| Fields.UnsetFieldKept | il2fit/xil2fit.cpp:201-212 | a field that no setting stores keeps the value it had |
| Fields.LastSetWins | il2fit/xil2fit.cpp:201-212 | a setting that no later setting of the same field follows holds in the final record |
| Messages.CreatorFieldKey | il2fit/xil2fit.cpp:202-211 | each file_creator field name selects its own field |
| Messages.ReadCreator | il2fit/xil2fit.cpp:203-206 | a value read consumes one line and stores the field that was named |
| Messages.ReadCreatorAppend | il2fit/xil2fit.cpp:203-206 | a value read from a complete line is unaffected by the input after it |
| Messages.CreatorReaderFacts | il2fit/xil2fit.cpp:203-206 | the file_creator reader looks no further than its value line |
| Messages.ParseFileCreator | il2fit/xil2fit.cpp:195-215 | the parser leaves a suffix of its input, a strictly shorter one on success |
| Messages.CreatorSpelled | il2fit/xil2fit.cpp:201-211 | lines that spell a file_creator setting are read as that setting |
| Messages.ReadCreatorLine | il2fit/xil2fit.cpp:203-206 | a value line spelling a setting reads as it: the first byte of the token for hardware_version, a number for software_version |
| Messages.CreatorUnsetKept | il2fit/xil2fit.cpp:199-214 | settings leave each field they do not store as it was |
| Messages.ParseFileCreatorBody | il2fit/xil2fit.cpp:195-215 | a spelled body followed by `end file_creator` parses to the empty message with the settings stored in order, leaving the rest |
| Messages.CreatorSetterLaws | il2fit/xil2fit.cpp:203-206 | storing a setting makes it hold and leaves the other field alone |
| Messages.CreatorSettings | il2fit/xil2fit.cpp:199-214 | an unset field stays unset, and the last setting of each field is the one kept |
| Messages.FileIdFieldKey | il2fit/xil2fit.cpp:231-240 | each file_id field name selects its own field |
| Messages.ReadFileId | il2fit/xil2fit.cpp:232-237 | a value read consumes one line and stores the field that was named |
| Messages.ReadFileIdAppend | il2fit/xil2fit.cpp:232-237 | a value read from a complete line is unaffected by the input after it |
| Messages.FileIdReaderFacts | il2fit/xil2fit.cpp:232-237 | the file_id reader looks no further than its value line |
| Messages.ParseFileId | il2fit/xil2fit.cpp:217-246 | the parser leaves a suffix of its input, a strictly shorter one on success |
| Messages.FileIdSpelled | il2fit/xil2fit.cpp:230-240 | lines that spell a file_id setting are read as that setting |
| Messages.ReadFileIdLine | il2fit/xil2fit.cpp:232-237 | a value line spelling a setting reads as it |
| Messages.FileIdUnsetKept | il2fit/xil2fit.cpp:223-243 | settings leave each field they do not store as it was |
| Messages.ParseFileIdBody | il2fit/xil2fit.cpp:217-246 | a spelled body followed by `end file_id` parses to the defaults with the settings stored in order, leaving the rest |
| Messages.FileIdSetterLaws | il2fit/xil2fit.cpp:232-237 | storing a setting makes it hold and leaves the other fields alone |
| Messages.FileIdSettings | il2fit/xil2fit.cpp:223-243 | type, manufacturer and product are always the defaults; number stays unset, serial number stays 54321 and time_created stays `now` unless set; the last setting of each field is the one kept |
| Messages.SportCycling | il2fit/xil2fit.cpp:259-305 | the default sport is in the sport table under "cycling" |
| Messages.WorkoutFieldKey | il2fit/xil2fit.cpp:308-320 | each workout field name selects its own field |
| Messages.ReadWorkout | il2fit/xil2fit.cpp:309-316 | a value read consumes one line, stores the field that was named, and an accepted num_valid_steps lies in [1, 10000] |
| Messages.ReadWorkoutAppend | il2fit/xil2fit.cpp:309-316 | a value read from a complete line is unaffected by the input after it |
| Messages.WorkoutReaderFacts | il2fit/xil2fit.cpp:309-316 | the workout reader looks no further than its value line |
| Messages.ParseWorkout | il2fit/xil2fit.cpp:248-325 | the parser leaves a suffix of its input, a strictly shorter one on success |
| Messages.WorkoutSpelled | il2fit/xil2fit.cpp:307-321 | lines that spell a workout setting are read as that setting |
| Messages.ReadWorkoutLine | il2fit/xil2fit.cpp:309-316 | a value line spelling a setting reads as it |
| Messages.ReadCapabilitiesLine | il2fit/xil2fit.cpp:309-310 | a capabilities line reads as the extracted 32-bit number |
| Messages.ReadStepsLine | il2fit/xil2fit.cpp:311-312 | a num_valid_steps line whose number lies in [1, 10000] reads as it |
| Messages.ReadSportLine | il2fit/xil2fit.cpp:313-314 | a sport line whose trim names a sport reads as that sport's code |
| Messages.WorkoutUnsetKept | il2fit/xil2fit.cpp:254-322 | settings leave each field they do not store as it was |
| Messages.ParseWorkoutBody | il2fit/xil2fit.cpp:248-325 | a spelled body followed by `end workout` parses to the defaults with the settings stored in order, leaving the rest |
| Messages.WorkoutSetterLaws | il2fit/xil2fit.cpp:309-316 | storing a setting makes it hold and leaves the other fields alone |
| Messages.WorkoutSettings | il2fit/xil2fit.cpp:254-322 | capabilities stays invalid, num_valid_steps stays 1, sport stays cycling and the name stays unset unless set; the last setting of each field is the one kept |
| Messages.ParseWorkoutValid | il2fit/xil2fit.cpp:254-322 | every workout the parser returns has 1 to 10000 valid steps and a sport code from the sport table |
| Messages.ReadWorkoutSport | il2fit/xil2fit.cpp:313-314 | an accepted sport is a code of the sport table |
| Messages.ParseWorkoutStepsOutOfRange | il2fit/xil2fit.cpp:311-312 | a num_valid_steps value outside [1, 10000] stops the parser with the range error, whatever follows |
| Driver.BlockKinds | il2fit/xil2fit.cpp:362-371 | the four record kinds accepted after `begin` and what each selects |
| Driver.ParseRecord | il2fit/xil2fit.cpp:362-368 | the parser of each kind leaves a suffix of its input, a strictly shorter one on success |
| Driver.RecordsAdvance | il2fit/xil2fit.cpp:362-368 | the program's record parsers consume input whenever they succeed |
| Driver.ParseRecordAppend | il2fit/xil2fit.cpp:362-368 | a record parsed from complete lines is parsed the same when more input follows |
| Driver.RecordsResume | il2fit/xil2fit.cpp:362-368 | the program's record parsers are unaffected by the input after a complete record |
| Driver.Step | il2fit/xil2fit.cpp:359-374 | one turn ends the loop exactly on the exhausted input; a first line other than the exact `begin` is "Bad token" naming it; after `begin`, an unknown record kind is "Bad token" naming the trimmed kind, and no further line is "Unexpected end of file"; a record read leaves a strictly shorter suffix |
| Driver.Xil2Fit | il2fit/xil2fit.cpp:352-379 | the loop run with the program's record parsers has the outcome of the reference definition `Convert` |
| Driver.Run | il2fit/xil2fit.cpp:359-374 | the loop, for any record parser that consumes input, has the outcome of `Convert` |
| Driver.ReadTurn | il2fit/xil2fit.cpp:359-373 | one loop iteration on a non-empty input is the first turn of the reference run: a line other than `begin` is "Bad token" naming it; a record read is the first record the run writes, before the run from a strictly shorter rest; an error is the error the run aborts with; a hang is a diverging run |
| Driver.ConvertOnTurn | il2fit/xil2fit.cpp:359-374 | a run writes the record of its first turn and goes on after it, or ends as that turn does |
| Driver.TurnKeepsRun | il2fit/xil2fit.cpp:359-374 | an iteration whose turn is the first turn of the run from the cursor keeps the loop invariant (what is written, followed by the run from the cursor, is the whole run) or decides the outcome |
| Driver.RunEnds | il2fit/xil2fit.cpp:359-374 | at the end of the input the run has converted exactly the records written |
| Driver.PrependAllSnoc | il2fit/xil2fit.cpp:359-374 | writing records in two groups is writing their concatenation |
| Driver.ConvertEmpty | il2fit/xil2fit.cpp:359-374 | a run converts nothing and succeeds exactly on the empty input |
| Driver.ConvertNotBegin | il2fit/xil2fit.cpp:359-373 | a first line other than `begin`, taken verbatim, aborts the run with "Bad token" naming that line |
| Driver.StepAppend | il2fit/xil2fit.cpp:359-374 | a turn that reads a record from complete lines is unaffected by the input after them |
| Driver.FirstRecord | il2fit/xil2fit.cpp:359-374 | a complete input that converts starts with a record, and that record is read the same when more input follows |
| Driver.ConvertConcat | il2fit/xil2fit.cpp:359-374 | records are written in input order and independently: a converting complete input followed by more input writes its records, then the outcome of the rest |
| Driver.Xil2FitConcat | il2fit/xil2fit.cpp:352-379 | the same for the program's record parsers |
| Driver.StepBlockStart | il2fit/xil2fit.cpp:361-371 | the turn over `begin` and a record kind is the record parsed from the body, or its error |
| Driver.ConvertBlockStart | il2fit/xil2fit.cpp:361-371 | a run over a block writes the record parsed from its body and goes on after it, or aborts with the parser's error |
| Driver.ConvertBlock | il2fit/xil2fit.cpp:361-371 | a block whose body parses as `r` writes `r`, and the run goes on after the block |
| Driver.Xil2FitBlock | il2fit/xil2fit.cpp:361-371 | the same for the program's record parsers |
| Driver.ConvertWorkoutStep | il2fit/xil2fit.cpp:369-370 | a `workout_step` block never finishes, reading the endless loop at lines 345-347 as written: the run diverges, whatever follows |
| Driver.ConvertUnknownKind | il2fit/xil2fit.cpp:362-371 | `begin` followed by a record kind not among the four aborts the run with "Bad token" naming the trimmed kind |
| Driver.ConvertBeginAtEnd | il2fit/xil2fit.cpp:359-362 | `begin` as the last line, with or without its '\n', aborts the run with "Unexpected end of file" |
| Driver.BeginLine | il2fit/xil2fit.cpp:359-361 | the line `begin` is read and accepted by the top-level match |
| CatchCases.TrimBlank | il2fit/xil2fit.cpp:412-420 | trimming "" and " \t\t " gives "" |
| CatchCases.TrimLeft | il2fit/xil2fit.cpp:422-425 | trimming " \tabc" gives "abc" |
| CatchCases.TrimRight | il2fit/xil2fit.cpp:427-430 | trimming "abc\t " gives "abc" |
| CatchCases.TrimBoth | il2fit/xil2fit.cpp:432-435 | trimming " \tabc\t " gives "abc" |
| CatchCases.LineEof | il2fit/xil2fit.cpp:440-444 | an empty input has no line |
| CatchCases.LineEmpty | il2fit/xil2fit.cpp:446-451 | "\n" is one empty line and then nothing |
| CatchCases.LineIncomplete | il2fit/xil2fit.cpp:453-458 | "abc" is the line "abc" and then nothing |
| CatchCases.LineComplete | il2fit/xil2fit.cpp:460-465 | "abc\n" is the line "abc" and then nothing |
| CatchCases.LineMultiple | il2fit/xil2fit.cpp:467-473 | "abc\ndef\n" is the lines "abc" and "def" and then nothing |
| CatchCases.ValueStringEof | il2fit/xil2fit.cpp:478-482 | reading a string at the end of the input is an error |
| CatchCases.ValueStringPlain | il2fit/xil2fit.cpp:484-488 | "abc\n" reads as "abc" |
| CatchCases.ValueStringPadded | il2fit/xil2fit.cpp:490-494 | " abc\t\t\n" reads as "abc" |
| CatchCases.ValueInt | il2fit/xil2fit.cpp:496-500 | "123\n" reads as 123 when extraction gives 123 |
| CatchCases.RangeCases | il2fit/xil2fit.cpp:511-527 | "55\n" is accepted in [0, 100] and with the bounds (100, 0), and is out of range for [0, 10] |
| CatchCases.EnumCases | il2fit/xil2fit.cpp:532-548 | "xyz\n" reads as 10 from {xyz: 10, abc: 12} and is an invalid enum value for {abc, def} |
| CatchCases.EmptyMatchTable | il2fit/xil2fit.cpp:553-559 | three matches against an empty table fail on "xyz", on the blank line and on "abc", one line each |
| CatchCases.MatchTable | il2fit/xil2fit.cpp:561-567 | the action keyed by the first token "xyz" is the one selected |

## Left out

- I/O: the `input.bad()` check of `line` and its "I/O error" are not modelled. The input is the string of characters still to be read.
- The FIT encoder is not modelled. `Open`, `Write`, the failing `Close` ("FIT encoder failed") and the bytes it writes are left out. A converted run lists the records handed to `Write`, in order, and so does a diverging run for the records written before the hang. An aborted run reports only the error, which is all `main` shows. The records already handed to `Write` before the failing block are not part of `Aborted`.
- `main`, its stdout/stderr output and its exit status are left out.
- Numeric extraction by `istringstream >>` is the parameter `ex`. It is partial, and like the source it does not reject characters after a numeric prefix.
- Unsigned wrap-around of `>>` (for example "-1" read into a FIT_UINT16) is part of `ex` as well.
- `value<double>` and its Catch case are left out: the model has no floating point.
- The `time(0)` default of time_created is the parameter `now`, already in FIT time. The `fit::DateTime` conversion is left out.
- `value<wstring>` (the FIXME widening of wkt_name) is modelled as the trimmed string itself.
- The locale of `isspace` is fixed to the C locale: space, tab, '\n', '\v', '\f' and '\r'.
- The input bytes are taken to be UTF-8 text, and a character of the model stands for its UTF-8 encoding (`Text.Utf8`). No byte of a multi-byte encoding is a C-locale space or '\n', so trimming, line splitting and token matching give the same results on characters as on bytes. Only the FIT_UINT8 read (`Values.ValueChar`) looks at a single byte. Input that is not valid UTF-8 is not modelled.
- `value<fit::WorkoutStepMesg>` is modelled only by its `for (bool done = false; !done;)` loop with an empty body at lines 345-347, read as written: a `workout_step` block makes the run `Diverges`. A loop without side effects is undefined behaviour in C++ (the forward-progress rule), so a compiler may assume it ends; the model does not follow that reading. Its defaults and intensity table are unused and left out.
- ir2fit is not part of this model: it only writes a fixed FileId through the encoder.
- The driver has no step count, step index or count-mismatch error; it accepts any sequence of `begin` blocks in any order (il2fit/xil2fit.cpp:359-374), and so does the model.
- `>>` reads a numeric prefix and ignores the characters after it; what it extracts is left to `ex`.
- The top-level token is modelled as the code reads it: the raw line. So `begin` with surrounding spaces is "Bad token" (`Driver.ConvertNotBegin`), while every other token is trimmed before `match`.
- The driver loop is proved for any record parser that consumes input. `Xil2Fit` instantiates it with the program's parsers. Properties of whole runs over concrete record text are stated with the parser as a parameter (`ConvertBlock`). The program's parsers are covered by `Xil2FitBlock` and the `Parse...Body` lemmas.

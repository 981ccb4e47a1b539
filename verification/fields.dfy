/** The field loop shared by the record parsers.

    Each record parser starts from its defaults and repeats: read a field
    name, dispatch on it, read the field's value and store it; the two-token
    marker `end` / <record kind> stops the loop.  The three parsers differ
    only in their tables, in how a value is read for a field and in how it is
    stored, so those are the parameters here:
      - `table`  maps a field-name token to a field, or to `EndKey` for `end`;
      - `read`   reads the value of a field as a setting, or fails;
      - `apply`  stores a setting in the record (the message's setter).

    Every value reader reads exactly one line (they all go through
    `value<string>`, whose model leaves `DropLine` of its input), so a
    reader is modelled by its outcome alone and the loop goes on after the
    value line, whether the reader succeeded or not.
 */
module Fields {
  import opened Common
  import opened Text
  import opened Values

  /** What a field-name token selects: a field of the record, or the end
      of the record. */
  datatype Key<+F> = FieldKey(field: F) | EndKey

  /** Reading field `f` from the complete lines `s` gives the same outcome
      whether or not `t` follows. */
  ghost predicate StableAt<F, A>(read: (string, F) -> Result<A>, s: string, t: string, f: F) {
    s != [] && Terminated(s) ==> read(s + t, f) == read(s, f)
  }

  /** A value reader looks no further than the line it reads. */
  ghost predicate Stable<F(!new), A>(read: (string, F) -> Result<A>) {
    forall s, t, f :: StableAt(read, s, t, f)
  }

  /** The singleton table of the inner `match` that follows `end`. */
  function KindTable(kind: string): map<string, ()> {
    map[kind := ()]
  }

  /** The loop `for (done = false; !done;) match(input, ...)`, started with
      the record `ans`. */
  function FieldLoop<F, A, R>(input: string, table: map<string, Key<F>>, read: (string, F) -> Result<A>,
                              apply: (R, A) -> R, kind: string, ans: R): (r: Parsed<R>)
    ensures IsSuffixOf(r.rest, input)
    ensures r.Ok? ==> |r.rest| < |input|
    decreases |input|
  {
    var m: Parsed<Key<F>> := Match(input, table);
    match m
    case Fail(e, rest) => Fail(e, rest)
    case Ok(key, rest) =>
      match key
      case EndKey =>
        var r := Match(rest, KindTable(kind));
        SuffixTrans(r.rest, rest, input);
        (match r
         case Fail(e, rest2) => Fail(e, rest2)
         case Ok(_, rest2) => Ok(ans, rest2))
      case FieldKey(f) =>
        var rest2 := DropLine(rest);
        SuffixTrans(rest2, rest, input);
        match read(rest, f)
        case Failure(e) => Fail(e, rest2)
        case Success(a) =>
          var r := FieldLoop(rest2, table, read, apply, kind, apply(ans, a));
          SuffixTrans(r.rest, rest2, input);
          r
  }

  /** The record obtained by storing the settings `sets` into `ans`, first
      to last. */
  function ApplyAll<R, A>(apply: (R, A) -> R, ans: R, sets: seq<A>): R
    decreases |sets|
  {
    if sets == [] then ans else ApplyAll(apply, apply(ans, sets[0]), sets[1..])
  }

  //--------------------------------------------------------------------------
  // The surface syntax of a record body

  /** Field lines as text: each pair is a field-name line and a value line. */
  function Render(items: seq<(string, string)>): string {
    if items == [] then [] else items[0].0 + "\n" + items[0].1 + "\n" + Render(items[1..])
  }

  /** The lines `item` spell the setting `a` of field `f`: the name line
      trims to a key of `f`, and the value line on its own reads as `a`. */
  ghost predicate Spelled<F, A>(table: map<string, Key<F>>, read: (string, F) -> Result<A>,
                                item: (string, string), f: F, a: A) {
    && '\n' !in item.0 && '\n' !in item.1
    && Trim(item.0) in table && table[Trim(item.0)] == FieldKey(f)
    && read(item.1 + "\n", f) == Success(a)
  }

  /** The lines `e` and `k` spell the end marker of a record of this kind. */
  predicate MarkerLines<F>(table: map<string, Key<F>>, e: string, k: string, kind: string) {
    && '\n' !in e && '\n' !in k
    && Trim(e) in table && table[Trim(e)] == EndKey
    && Trim(k) == kind
  }

  /** The loop reads a spelled record body: when the input is a sequence of
      field lines spelling the settings `sets`, then the end marker, the
      result is `ans` with the settings stored in input order, and the input
      after the marker is left unread. */
  lemma {:induction false} FieldLoopReadsBody<F(!new), A, R>(
    items: seq<(string, string)>, fields: seq<F>, sets: seq<A>, e: string, k: string, rest: string,
    table: map<string, Key<F>>, read: (string, F) -> Result<A>, apply: (R, A) -> R, kind: string, ans: R)
    requires Stable(read)
    requires |items| == |fields| == |sets|
    requires forall i :: 0 <= i < |items| ==> Spelled(table, read, items[i], fields[i], sets[i])
    requires MarkerLines(table, e, k, kind)
    ensures FieldLoop(Render(items) + (e + "\n" + (k + "\n" + rest)), table, read, apply, kind, ans)
            == Ok(ApplyAll(apply, ans, sets), rest)
    decreases |items|
  {
    var tail := e + "\n" + (k + "\n" + rest);
    if items == [] {
      assert Render(items) + tail == tail;
      FieldLoopReadsMarker(e, k, rest, table, read, apply, kind, ans);
    } else {
      FieldLoopReadsFirst(items, fields, sets, tail, table, read, apply, kind, ans);
      SpelledTail(items, fields, sets, table, read);
      FieldLoopReadsBody(items[1..], fields[1..], sets[1..], e, k, rest, table, read, apply, kind, apply(ans, sets[0]));
      assert ApplyAll(apply, ans, sets) == ApplyAll(apply, apply(ans, sets[0]), sets[1..]);
    }
  }

  lemma SpelledTail<F, A>(items: seq<(string, string)>, fields: seq<F>, sets: seq<A>,
                          table: map<string, Key<F>>, read: (string, F) -> Result<A>)
    requires 0 < |items| == |fields| == |sets|
    requires forall i :: 0 <= i < |items| ==> Spelled(table, read, items[i], fields[i], sets[i])
    ensures forall i :: 0 <= i < |items| - 1 ==> Spelled(table, read, items[1..][i], fields[1..][i], sets[1..][i])
  {
    forall i | 0 <= i < |items| - 1
      ensures Spelled(table, read, items[1..][i], fields[1..][i], sets[1..][i])
    {
      assert Spelled(table, read, items[i + 1], fields[i + 1], sets[i + 1]);
    }
  }

  /** The first field line of a spelled body is read and stored. */
  lemma FieldLoopReadsFirst<F(!new), A, R>(
    items: seq<(string, string)>, fields: seq<F>, sets: seq<A>, tail: string,
    table: map<string, Key<F>>, read: (string, F) -> Result<A>, apply: (R, A) -> R, kind: string, ans: R)
    requires Stable(read)
    requires 0 < |items| <= |fields| && |items| <= |sets|
    requires Spelled(table, read, items[0], fields[0], sets[0])
    ensures FieldLoop(Render(items) + tail, table, read, apply, kind, ans)
            == FieldLoop(Render(items[1..]) + tail, table, read, apply, kind, apply(ans, sets[0]))
  {
    RenderCons(items, tail);
    FieldLoopReadsField(items[0], fields[0], sets[0], Render(items[1..]) + tail, table, read, apply, kind, ans);
  }

  /** One step of the loop: a spelled field is read and stored. */
  lemma FieldLoopReadsField<F(!new), A, R>(item: (string, string), f: F, a: A, later: string,
    table: map<string, Key<F>>, read: (string, F) -> Result<A>, apply: (R, A) -> R, kind: string, ans: R)
    requires Stable(read)
    requires Spelled(table, read, item, f, a)
    ensures FieldLoop(item.0 + "\n" + ((item.1 + "\n") + later), table, read, apply, kind, ans)
            == FieldLoop(later, table, read, apply, kind, apply(ans, a))
  {
    var n, v := item.0, item.1;
    ValueStringOfLine(n, (v + "\n") + later);
    assert StableAt(read, v + "\n", later, f);
    assert (v + "\n") + later == v + "\n" + later;
    ValueStringOfLine(v, later);
  }

  /** The last step of the loop: the end marker returns the record. */
  lemma FieldLoopReadsMarker<F, A, R>(e: string, k: string, rest: string,
    table: map<string, Key<F>>, read: (string, F) -> Result<A>, apply: (R, A) -> R, kind: string, ans: R)
    requires MarkerLines(table, e, k, kind)
    ensures FieldLoop(e + "\n" + (k + "\n" + rest), table, read, apply, kind, ans) == Ok(ans, rest)
  {
    ValueStringOfLine(e, k + "\n" + rest);
    ValueStringOfLine(k, rest);
  }

  lemma RenderCons(items: seq<(string, string)>, tail: string)
    requires items != []
    ensures Render(items) + tail == items[0].0 + "\n" + ((items[0].1 + "\n") + (Render(items[1..]) + tail))
  {
    var n, v, r := items[0].0, items[0].1, Render(items[1..]);
    calc {
      Render(items) + tail;
      (((n + "\n") + v) + "\n" + r) + tail;
      (((n + "\n") + v) + "\n") + (r + tail);
      ((n + "\n") + v) + ("\n" + (r + tail));
      (n + "\n") + (v + ("\n" + (r + tail)));
      (n + "\n") + ((v + "\n") + (r + tail));
    }
  }

  /** The loop is unaffected by input that follows a complete record. */
  lemma {:induction false} FieldLoopAppend<F(!new), A, R>(s: string, t: string,
    table: map<string, Key<F>>, read: (string, F) -> Result<A>, apply: (R, A) -> R, kind: string, ans: R)
    requires Stable(read)
    requires Terminated(s) && FieldLoop(s, table, read, apply, kind, ans).Ok?
    ensures Terminated(FieldLoop(s, table, read, apply, kind, ans).rest)
    ensures FieldLoop(s + t, table, read, apply, kind, ans)
            == Ok(FieldLoop(s, table, read, apply, kind, ans).value, FieldLoop(s, table, read, apply, kind, ans).rest + t)
    decreases |s|
  {
    MatchAppend(s, t, table);
    var rest := Match(s, table).rest;
    match Match(s, table).value
    case EndKey =>
      MatchAppend(rest, t, KindTable(kind));
    case FieldKey(f) =>
      assert StableAt(read, rest, t, f);
      DropLineAppend(rest, t);
      FieldLoopAppend(DropLine(rest), t, table, read, apply, kind, apply(ans, read(rest, f).value));
  }

  /** `s` starts with the two tokens of an end marker (the first selecting
      `EndKey`, the second naming the record kind) and `rest` follows them. */
  ghost predicate EndMarker<F>(s: string, table: map<string, Key<F>>, kind: string, rest: string) {
    && Match(s, table).Ok?
    && Match(s, table).value == EndKey
    && ValueString(Match(s, table).rest) == Ok(kind, rest)
  }

  /** The loop finishes successfully only on the end marker: the input it
      leaves is exactly what follows an end marker inside the input. */
  lemma {:induction false} FieldLoopEndsOnMarker<F, A, R>(input: string,
    table: map<string, Key<F>>, read: (string, F) -> Result<A>, apply: (R, A) -> R, kind: string, ans: R)
    requires FieldLoop(input, table, read, apply, kind, ans).Ok?
    ensures exists m :: IsSuffixOf(m, input) && EndMarker(m, table, kind, FieldLoop(input, table, read, apply, kind, ans).rest)
    decreases |input|
  {
    if Match(input, table).value == EndKey {
      FieldLoopOnEnd(input, table, read, apply, kind, ans);
      assert IsSuffixOf(input, input);
    } else {
      var rest := Match(input, table).rest;
      var f := Match(input, table).value.field;
      var later := DropLine(rest);
      FieldLoopOnField(input, table, read, apply, kind, ans);
      var next := apply(ans, read(rest, f).value);
      FieldLoopEndsOnMarker(later, table, read, apply, kind, next);
      var m :| IsSuffixOf(m, later) && EndMarker(m, table, kind, FieldLoop(later, table, read, apply, kind, next).rest);
      SuffixTrans(later, rest, input);
      SuffixTrans(m, later, input);
    }
  }

  /** A successful loop whose first token is `end` stops right there. */
  lemma FieldLoopOnEnd<F, A, R>(input: string,
    table: map<string, Key<F>>, read: (string, F) -> Result<A>, apply: (R, A) -> R, kind: string, ans: R)
    requires FieldLoop(input, table, read, apply, kind, ans).Ok?
    requires Match(input, table).value == EndKey
    ensures FieldLoop(input, table, read, apply, kind, ans).value == ans
    ensures EndMarker(input, table, kind, FieldLoop(input, table, read, apply, kind, ans).rest)
  {
  }

  /** A successful loop whose first token names a field read that field's
      value and went on after the value line with the value stored. */
  lemma FieldLoopOnField<F, A, R>(input: string,
    table: map<string, Key<F>>, read: (string, F) -> Result<A>, apply: (R, A) -> R, kind: string, ans: R)
    requires FieldLoop(input, table, read, apply, kind, ans).Ok?
    requires Match(input, table).value.FieldKey?
    ensures read(Match(input, table).rest, Match(input, table).value.field).Success?
    ensures var rest := Match(input, table).rest;
            var a := read(rest, Match(input, table).value.field).value;
            FieldLoop(input, table, read, apply, kind, ans) == FieldLoop(DropLine(rest), table, read, apply, kind, apply(ans, a))
  {
  }

  /** A property of records that the defaults have and that storing any
      value the reader accepts keeps holds of the record the loop returns. */
  lemma {:induction false} FieldLoopPreserves<F, A, R>(input: string,
    table: map<string, Key<F>>, read: (string, F) -> Result<A>, apply: (R, A) -> R, kind: string, ans: R,
    inv: R -> bool)
    requires inv(ans)
    requires forall r, s, f :: inv(r) && read(s, f).Success? ==> inv(apply(r, read(s, f).value))
    ensures FieldLoop(input, table, read, apply, kind, ans).Ok? ==> inv(FieldLoop(input, table, read, apply, kind, ans).value)
    decreases |input|
  {
    var m := Match(input, table);
    if m.Ok? && m.value.FieldKey? {
      var v := read(m.rest, m.value.field);
      if v.Success? {
        FieldLoopPreserves(DropLine(m.rest), table, read, apply, kind, apply(ans, v.value), inv);
      }
    }
  }

  //--------------------------------------------------------------------------
  // Errors

  /** A field-name token that is not in the table stops the loop with
      "Bad token" naming it; at the end of the input it is "Unexpected end
      of file". */
  lemma FieldLoopBadField<F, A, R>(input: string,
    table: map<string, Key<F>>, read: (string, F) -> Result<A>, apply: (R, A) -> R, kind: string, ans: R)
    requires input == [] || ValueString(input).value !in table
    ensures input == [] ==> FieldLoop(input, table, read, apply, kind, ans) == Fail(UnexpectedEof, [])
    ensures input != [] ==>
              FieldLoop(input, table, read, apply, kind, ans) == Fail(BadToken(ValueString(input).value), DropLine(input))
  {
  }

  /** After `end`, a token other than the record kind is "Bad token" naming
      it, and a missing one is "Unexpected end of file". */
  lemma FieldLoopBadKind<F, A, R>(input: string,
    table: map<string, Key<F>>, read: (string, F) -> Result<A>, apply: (R, A) -> R, kind: string, ans: R)
    requires Match(input, table) == Ok(EndKey, DropLine(input))
    requires var rest := DropLine(input); rest == [] || ValueString(rest).value != kind
    ensures var rest := DropLine(input);
            FieldLoop(input, table, read, apply, kind, ans)
            == if rest == [] then Fail(UnexpectedEof, []) else Fail(BadToken(ValueString(rest).value), DropLine(rest))
  {
    var rest := DropLine(input);
    var r := Match(rest, KindTable(kind));
    assert FieldLoop(input, table, read, apply, kind, ans) == Fail(r.error, r.rest);
    if rest != [] {
      assert ValueString(rest).value !in KindTable(kind);
    }
  }

  /** A value the field's reader rejects stops the loop with the reader's
      error, the value line consumed. */
  lemma FieldLoopBadValue<F, A, R>(input: string,
    table: map<string, Key<F>>, read: (string, F) -> Result<A>, apply: (R, A) -> R, kind: string, ans: R, f: F)
    requires Match(input, table) == Ok(FieldKey(f), DropLine(input))
    requires read(DropLine(input), f).Failure?
    ensures FieldLoop(input, table, read, apply, kind, ans)
            == Fail(read(DropLine(input), f).error, DropLine(DropLine(input)))
  {
  }

  /** A spelled record body that the input ends before its end marker fails
      with "Unexpected end of file". */
  lemma {:induction false} FieldLoopTruncated<F(!new), A, R>(
    items: seq<(string, string)>, fields: seq<F>, sets: seq<A>,
    table: map<string, Key<F>>, read: (string, F) -> Result<A>, apply: (R, A) -> R, kind: string, ans: R)
    requires Stable(read)
    requires |items| == |fields| == |sets|
    requires forall i :: 0 <= i < |items| ==> Spelled(table, read, items[i], fields[i], sets[i])
    ensures FieldLoop(Render(items), table, read, apply, kind, ans) == Fail(UnexpectedEof, [])
    decreases |items|
  {
    if items != [] {
      FieldLoopReadsFirst(items, fields, sets, [], table, read, apply, kind, ans);
      assert Render(items) + [] == Render(items);
      assert Render(items[1..]) + [] == Render(items[1..]);
      SpelledTail(items, fields, sets, table, read);
      FieldLoopTruncated(items[1..], fields[1..], sets[1..], table, read, apply, kind, apply(ans, sets[0]));
    }
  }

  //--------------------------------------------------------------------------
  // Defaults and overwriting

  /** The laws of a record's setters: `fieldOf(a)` is the field a setting
      stores, `holds(r, a)` says that record `r` holds setting `a`.  Storing
      `a` makes it hold; storing a setting of another field leaves it. */
  ghost predicate SetterLaws<F, A(!new), R(!new)>(apply: (R, A) -> R, fieldOf: A -> F, holds: (R, A) -> bool) {
    && (forall r, a :: holds(apply(r, a), a))
    && (forall r, a, b :: fieldOf(a) != fieldOf(b) && holds(r, a) ==> holds(apply(r, b), a))
  }

  /** A field that no setting stores keeps the value it had before. */
  lemma {:induction false} UnsetFieldKept<F, A(!new), R(!new)>(apply: (R, A) -> R, fieldOf: A -> F, holds: (R, A) -> bool,
                                                   ans: R, sets: seq<A>, a: A)
    requires SetterLaws(apply, fieldOf, holds)
    requires holds(ans, a)
    requires forall j :: 0 <= j < |sets| ==> fieldOf(sets[j]) != fieldOf(a)
    ensures holds(ApplyAll(apply, ans, sets), a)
    decreases |sets|
  {
    if sets != [] {
      UnsetFieldKept(apply, fieldOf, holds, apply(ans, sets[0]), sets[1..], a);
    }
  }

  /** The last setting of a field wins: a setting that no later setting of
      the same field follows holds of the final record. */
  lemma {:induction false} LastSetWins<F, A(!new), R(!new)>(apply: (R, A) -> R, fieldOf: A -> F, holds: (R, A) -> bool,
                                                ans: R, sets: seq<A>, i: nat)
    requires SetterLaws(apply, fieldOf, holds)
    requires i < |sets|
    requires forall j :: i < j < |sets| ==> fieldOf(sets[j]) != fieldOf(sets[i])
    ensures holds(ApplyAll(apply, ans, sets), sets[i])
    decreases |sets|
  {
    if i == 0 {
      UnsetFieldKept(apply, fieldOf, holds, apply(ans, sets[0]), sets[1..], sets[0]);
    } else {
      LastSetWins(apply, fieldOf, holds, apply(ans, sets[0]), sets[1..], i - 1);
    }
  }
}

/** The unit cases that accompany the converter, stated as lemmas about the
    model.  An input is written line by line, each line followed by its
    '\n' terminator.  Numeric extraction is a parameter of the model, so
    the cases that read numbers assume only what `istringstream >>` does on
    the token at hand. */
module CatchCases {
  import opened Common
  import opened Text
  import opened Values

  //--------------------------------------------------------------------------
  // trim

  lemma TrimBlank()
    ensures Trim("") == ""
    ensures Trim(" \t\t ") == ""
  {
    TrimEmpty(" \t\t ");
  }

  lemma TrimLeft()
    ensures Trim(" \tabc") == "abc"
  {
    var s := " \tabc";
    assert s[2..5] == "abc";
    TrimUnique(s, 2, 5);
  }

  lemma TrimRight()
    ensures Trim("abc\t ") == "abc"
  {
    var s := "abc\t ";
    assert s[0..3] == "abc";
    TrimUnique(s, 0, 3);
  }

  lemma TrimBoth()
    ensures Trim(" \tabc\t ") == "abc"
  {
    var s := " \tabc\t ";
    assert s[2..5] == "abc";
    TrimUnique(s, 2, 5);
  }

  //--------------------------------------------------------------------------
  // line

  lemma LineEof()
    ensures Line("") == EndOfInput
  {
  }

  lemma LineEmpty()
    ensures Line("" + "\n") == LineOf("", "")
  {
    LineExact("" + "\n", "", "");
  }

  lemma LineIncomplete()
    ensures Line("abc") == LineOf("abc", "")
  {
    LineExact("abc", "abc", "");
  }

  lemma LineComplete()
    ensures Line("abc" + "\n") == LineOf("abc", "")
  {
    LineExact("abc" + "\n", "abc", "");
  }

  /** Successive calls on two complete lines return them in turn, then
      report the end of the input. */
  lemma LineMultiple()
    ensures Line("abc" + "\n" + ("def" + "\n")) == LineOf("abc", "def" + "\n")
    ensures Line("def" + "\n") == LineOf("def", "")
    ensures AllLines("abc" + "\n" + ("def" + "\n")) == ["abc", "def"]
  {
    UnlinesAllLines(["abc", "def"]);
    assert Unlines(["abc", "def"]) == "abc" + "\n" + ("def" + "\n") by {
      assert Unlines(["def"]) == "def" + "\n" + Unlines([]);
    }
    LineExact("abc" + "\n" + ("def" + "\n"), "abc", "def" + "\n");
    LineExact("def" + "\n", "def", "");
  }

  //--------------------------------------------------------------------------
  // value

  lemma ValueStringEof()
    ensures ValueString("") == Fail(UnexpectedEof, [])
  {
  }

  lemma ValueStringPlain()
    ensures ValueString("abc" + "\n") == Ok("abc", [])
  {
    ReadsLine("abc");
  }

  lemma ValueStringPadded()
    ensures ValueString(" abc\t\t" + "\n") == Ok("abc", [])
  {
    var s := " abc\t\t";
    assert s[1..4] == "abc";
    ReadsPaddedLine(s, 1, 4);
  }

  lemma ValueInt(ex: Extractor)
    requires ex(Int, "123") == Some(123)
    ensures ValueNum("123" + "\n", ex, Int) == Ok(123, [])
  {
    ReadsLine("123");
  }

  /** A line without surrounding whitespace, terminated, reads as itself. */
  lemma ReadsLine(v: string)
    requires '\n' !in v && Trimmed(v)
    ensures ValueString(v + "\n") == Ok(v, [])
  {
    ReadsPaddedLine(v, 0, |v|);
    assert v[0..|v|] == v;
  }

  /** The same when more lines follow. */
  lemma ReadsLineBefore(v: string, rest: string)
    requires '\n' !in v && Trimmed(v)
    ensures ValueString(v + "\n" + rest) == Ok(v, rest)
  {
    ValueStringOfLine(v, rest);
    TrimTrimmed(v);
  }

  /** A padded line, terminated, reads as the part between the padding. */
  lemma ReadsPaddedLine(v: string, i: nat, j: nat)
    requires '\n' !in v && i <= j <= |v|
    requires AllSpace(v[..i]) && AllSpace(v[j..]) && Trimmed(v[i..j])
    ensures ValueString(v + "\n") == Ok(v[i..j], [])
  {
    ValueLine(v);
    TrimUnique(v, i, j);
  }

  //--------------------------------------------------------------------------
  // value with range

  lemma RangeCases(ex: Extractor)
    requires ex(Int, "55") == Some(55)
    ensures ValueInRange("55" + "\n", ex, Int, 0, 100) == Ok(55, [])
    ensures ValueInRange("55" + "\n", ex, Int, 0, 10) == Fail(OutOfRange(55, 0, 10), [])
    ensures ValueInRange("55" + "\n", ex, Int, 100, 0) == Ok(55, [])
  {
    ReadsLine("55");
  }

  //--------------------------------------------------------------------------
  // value for enumerations

  lemma EnumCases()
    ensures ValueEnum("xyz" + "\n", map["xyz" := 10, "abc" := 12]) == Ok(10, [])
    ensures ValueEnum("xyz" + "\n", map["abc" := 20, "def" := 30]) == Fail(InvalidEnum("xyz"), [])
  {
    ReadsLine("xyz");
  }

  //--------------------------------------------------------------------------
  // match

  /** A table without actions. */
  const NO_ACTIONS: map<string, ()> := map[]

  /** Three calls with an empty table on three lines, the second blank:
      each one fails, and each one consumes its line. */
  lemma EmptyMatchTable()
    ensures Match("xyz" + "\n" + ("" + "\n" + ("abc" + "\n")), NO_ACTIONS)
            == Fail(BadToken("xyz"), "" + "\n" + ("abc" + "\n"))
    ensures Match("" + "\n" + ("abc" + "\n"), NO_ACTIONS) == Fail(BadToken(""), "abc" + "\n")
    ensures Match("abc" + "\n", NO_ACTIONS) == Fail(BadToken("abc"), [])
  {
    ReadsLineBefore("xyz", "" + "\n" + ("abc" + "\n"));
    ReadsLineBefore("", "abc" + "\n");
    ReadsLine("abc");
  }

  /** The action keyed by the first token is the one selected. */
  lemma MatchTable()
    ensures Match("xyz" + "\n" + ("abc" + "\n"), map["xyz" := true]) == Ok(true, "abc" + "\n")
  {
    ReadsLineBefore("xyz", "abc" + "\n");
  }
}

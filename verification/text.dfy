/** The line tokenizer: whitespace trimming and reading one line at a time.

    The input stream is modelled by the characters it still holds; reading
    a line returns the line and the characters after it.
 */
module Text {

  /** Whitespace as `isspace` classifies it in the C locale: space, tab,
      newline, vertical tab, form feed and carriage return. */
  predicate IsSpace(c: char) {
    c == ' ' || c == '\t' || c == '\n' || c == '\U{B}' || c == '\U{C}' || c == '\r'
  }

  ghost predicate AllSpace(s: string) {
    forall k :: 0 <= k < |s| ==> IsSpace(s[k])
  }

  /** Neither end of `s` is whitespace. */
  predicate Trimmed(s: string) {
    s == [] || (!IsSpace(s[0]) && !IsSpace(s[|s| - 1]))
  }

  /** `a` is what is left of `b` after some prefix of it has been read. */
  predicate IsSuffixOf(a: string, b: string) {
    |a| <= |b| && b[|b| - |a|..] == a
  }

  lemma SuffixTrans(a: string, b: string, c: string)
    requires IsSuffixOf(a, b) && IsSuffixOf(b, c)
    ensures IsSuffixOf(a, c)
  {
    assert c[|c| - |a|..] == c[|c| - |b|..][|b| - |a|..];
  }

  /** Regrouping a concatenation, as a fact to hand to the solver: stating
      it as an assertion inside a larger proof costs far more. */
  lemma ConcatAssoc(a: string, b: string, c: string)
    ensures a + (b + c) == (a + b) + c
  {
  }

  //--------------------------------------------------------------------------
  // trim

  /** Position of the first character that is not whitespace, or |s| when
      there is none: `find_if_not(begin, end, isspace)`. */
  function SkipSpace(s: string): (i: nat)
    ensures i <= |s|
    ensures AllSpace(s[..i])
    ensures i < |s| ==> !IsSpace(s[i])
  {
    if s == [] || !IsSpace(s[0]) then 0
    else
      var j := SkipSpace(s[1..]);
      assert s[..j + 1] == [s[0]] + s[1..][..j];
      1 + j
  }

  /** One past the last character that is not whitespace, or 0 when there
      is none: `find_if_not(rbegin, rend, isspace).base()`. */
  function SkipSpaceBack(s: string): (j: nat)
    ensures j <= |s|
    ensures AllSpace(s[j..])
    ensures 0 < j ==> !IsSpace(s[j - 1])
  {
    if s == [] || !IsSpace(s[|s| - 1]) then |s|
    else
      var j := SkipSpaceBack(s[..|s| - 1]);
      assert s[j..] == s[..|s| - 1][j..] + [s[|s| - 1]];
      j
  }

  /** `trim`: erase the leading whitespace, then the trailing whitespace of
      what is left.  The result has no whitespace at either end. */
  function Trim(s: string): (r: string)
    ensures Trimmed(r)
  {
    var i := SkipSpace(s);
    var t := s[i..];
    t[..SkipSpaceBack(t)]
  }

  /** What `trim` keeps is the part of `s` between an all-blank prefix and
      an all-blank suffix. */
  lemma TrimSpan(s: string) returns (i: nat, j: nat)
    ensures i <= j <= |s|
    ensures Trim(s) == s[i..j] && AllSpace(s[..i]) && AllSpace(s[j..])
  {
    i := SkipSpace(s);
    var t := s[i..];
    var k := SkipSpaceBack(t);
    j := i + k;
    assert t[..k] == s[i..j];
    assert s[j..] == t[k..];
  }

  /** Trimming gives the empty string exactly when the input is all
      whitespace (the empty string included). */
  lemma TrimEmpty(s: string)
    ensures Trim(s) == [] <==> AllSpace(s)
  {
    var i := SkipSpace(s);
    if AllSpace(s) {
      assert i == |s|;
    } else {
      var k :| 0 <= k < |s| && !IsSpace(s[k]);
      var a, b := TrimSpan(s);
      assert a <= k < b;
      assert Trim(s)[k - a] == s[k];
    }
  }

  /** A string with no whitespace at either end is its own trim. */
  lemma TrimTrimmed(s: string)
    requires Trimmed(s)
    ensures Trim(s) == s
  {
    if s != [] {
      assert SkipSpace(s) == 0;
      assert SkipSpaceBack(s) == |s|;
    }
  }

  /** `trim` is idempotent. */
  lemma TrimIdempotent(s: string)
    ensures Trim(Trim(s)) == Trim(s)
  {
    TrimTrimmed(Trim(s));
  }

  /** The result of `trim` is determined by its two ends: any part of `s`
      lying between an all-blank prefix and an all-blank suffix and having
      no whitespace at either end is `Trim(s)`. */
  lemma TrimUnique(s: string, i: nat, j: nat)
    requires i <= j <= |s|
    requires AllSpace(s[..i]) && AllSpace(s[j..]) && Trimmed(s[i..j])
    ensures Trim(s) == s[i..j]
  {
    if i == j {
      assert AllSpace(s) by {
        forall k | 0 <= k < |s| ensures IsSpace(s[k]) {
          if k < i { assert s[..i][k] == s[k]; } else { assert s[j..][k - j] == s[k]; }
        }
      }
      TrimEmpty(s);
    } else {
      var a := SkipSpace(s);
      assert a == i by {
        assert !IsSpace(s[i]) by { assert s[i..j][0] == s[i]; }
      }
      var t := s[i..];
      var b := SkipSpaceBack(t);
      assert b == j - i by {
        assert !IsSpace(t[j - i - 1]) by { assert s[i..j][j - i - 1] == t[j - i - 1]; }
      }
      assert t[..b] == s[i..j];
    }
  }

  //--------------------------------------------------------------------------
  // line

  /** Position of the first '\n' in `s`, or |s| when there is none. */
  function NewlineIndex(s: string): (k: nat)
    ensures k <= |s|
    ensures '\n' !in s[..k]
    ensures k < |s| ==> s[k] == '\n'
  {
    if s == [] || s[0] == '\n' then 0
    else
      var k := NewlineIndex(s[1..]);
      assert s[..k + 1] == [s[0]] + s[1..][..k];
      1 + k
  }

  /** `s` is the line `l`, then its '\n' terminator, then `rest`; or `l` is
      a final, non-empty line without terminator and nothing follows it. */
  predicate SplitsAt(s: string, l: string, rest: string) {
    '\n' !in l && (s == l + "\n" + rest || (s == l && l != [] && rest == []))
  }

  /** The two outcomes of `line`: no line at all, or a line and the input
      that follows it. */
  datatype LineRead = EndOfInput | LineOf(text: string, rest: string)

  /** `line`: `getline` up to the next '\n', which is consumed but not
      returned.  Only an exhausted input with nothing read yields no line;
      an empty line before a '\n' and a final line without '\n' are lines. */
  function Line(s: string): (r: LineRead)
    ensures r.EndOfInput? <==> s == []
    ensures r.LineOf? ==> SplitsAt(s, r.text, r.rest)
    ensures r.LineOf? ==> IsSuffixOf(r.rest, s) && |r.rest| < |s|
  {
    if s == [] then EndOfInput
    else
      var k := NewlineIndex(s);
      if k < |s| then
        assert s == s[..k] + "\n" + s[k + 1..];
        LineOf(s[..k], s[k + 1..])
      else
        assert s[..k] == s;
        LineOf(s, [])
  }

  /** `line` returns exactly the characters up to the next '\n': its result
      is the one and only split of the input into a line and a rest. */
  lemma LineExact(s: string, l: string, rest: string)
    ensures Line(s) == LineOf(l, rest) <==> SplitsAt(s, l, rest)
  {
    if SplitsAt(s, l, rest) {
      var k := NewlineIndex(s);
      if s == l + "\n" + rest {
        assert s[|l|] == '\n';
        assert s[..|l|] == l;
        assert s[..k] == l;
        assert s[k + 1..] == rest;
      } else {
        assert s[..|s|] == s;
      }
    }
  }

  /** Whatever has been read, the stream stops at a line boundary: it is
      empty or its last character is '\n'. */
  predicate Terminated(s: string) {
    s == [] || s[|s| - 1] == '\n'
  }

  /** Appending more input after a complete line does not change that line:
      the new characters only lengthen what is left to read. */
  lemma LineAppend(s: string, t: string)
    requires s != [] && Terminated(s)
    ensures Line(s).LineOf? && Terminated(Line(s).rest)
    ensures Line(s + t) == LineOf(Line(s).text, Line(s).rest + t)
  {
    var l, r := Line(s).text, Line(s).rest;
    assert s != l by { assert s[|s| - 1] == '\n'; }
    assert s == l + "\n" + r;
    assert s + t == l + "\n" + (r + t);
    LineExact(s + t, l, r + t);
    if r != [] {
      assert r[|r| - 1] == s[|s| - 1];
    }
  }

  /** The lines that successive calls of `line` return before it reports
      the end of the input. */
  function AllLines(s: string): seq<string>
    decreases |s|
  {
    match Line(s)
    case EndOfInput => []
    case LineOf(l, rest) => [l] + AllLines(rest)
  }

  /** The text whose lines are `ls`, each line terminated by '\n'. */
  function Unlines(ls: seq<string>): string {
    if ls == [] then [] else ls[0] + "\n" + Unlines(ls[1..])
  }

  /** No line that `line` returns contains a '\n'. */
  lemma {:induction false} AllLinesNoNewline(s: string)
    ensures forall i :: 0 <= i < |AllLines(s)| ==> '\n' !in AllLines(s)[i]
    decreases |s|
  {
    match Line(s)
    case EndOfInput =>
    case LineOf(l, rest) =>
      AllLinesNoNewline(rest);
      assert AllLines(s) == [l] + AllLines(rest);
  }

  /** Reading every line of `s` and writing each back with a terminator
      gives `s` again, with a '\n' added after a final unterminated line. */
  lemma {:induction false} AllLinesUnlines(s: string)
    ensures Unlines(AllLines(s)) == if Terminated(s) then s else s + "\n"
    decreases |s|
  {
    if s != [] {
      var l, rest := Line(s).text, Line(s).rest;
      AllLinesUnlines(rest);
      var ls := AllLines(rest);
      assert AllLines(s) == [l] + ls;
      assert Unlines([l] + ls) == l + "\n" + Unlines(ls) by {
        assert ([l] + ls)[1..] == ls;
      }
      if s == l + "\n" + rest {
        if rest == [] {
          assert Terminated(s);
          assert Unlines(ls) == [];
        } else {
          assert s[|s| - 1] == rest[|rest| - 1];
          assert Terminated(s) == Terminated(rest);
          if Terminated(rest) {
            assert Unlines(ls) == rest;
          } else {
            assert Unlines(ls) == rest + "\n";
            ConcatAssoc(l + "\n", rest, "\n");
          }
        }
      } else {
        assert s == l && rest == [];
        assert !Terminated(s) by { assert s[|s| - 1] in l; }
        assert Unlines(ls) == [];
      }
    }
  }

  /** Conversely, the lines of a text written from lines without '\n' are
      exactly those lines: repeated `line` calls split on '\n'. */
  lemma {:induction false} UnlinesAllLines(ls: seq<string>)
    requires forall i :: 0 <= i < |ls| ==> '\n' !in ls[i]
    ensures AllLines(Unlines(ls)) == ls
  {
    if ls != [] {
      LineExact(Unlines(ls), ls[0], Unlines(ls[1..]));
      UnlinesAllLines(ls[1..]);
    }
  }
  //--------------------------------------------------------------------------
  // Bytes

  /** The input is a byte stream holding UTF-8 text; a character of the
      model stands for its UTF-8 encoding (section 3 of RFC 3629): the code
      point in 6-bit groups, the first group behind a length marker.  No
      byte of a multi-byte encoding is a C-locale space or '\n', so
      trimming and splitting lines agree on characters and on bytes. */
  function Utf8(c: char): (bs: seq<int>)
    ensures 1 <= |bs| <= 4
    ensures forall i :: 0 <= i < |bs| ==> 0 <= bs[i] < 0x100
    ensures |bs| == 1 <==> c as int < 0x80
    ensures bs[0] < 0x80 || 0xC2 <= bs[0] <= 0xF4
    ensures forall i :: 1 <= i < |bs| ==> 0x80 <= bs[i] < 0xC0
  {
    var n := c as int;
    var g1, g2, g3 := n / 0x40, n / 0x40 / 0x40, n / 0x40 / 0x40 / 0x40;
    if n < 0x80 then [n]
    else if n < 0x800 then [0xC0 + g1, 0x80 + n % 0x40]
    else if n < 0x10000 then [0xE0 + g2, 0x80 + g1 % 0x40, 0x80 + n % 0x40]
    else [0xF0 + g3, 0x80 + g2 % 0x40, 0x80 + g1 % 0x40, 0x80 + n % 0x40]
  }

  /** The code point spelled by the UTF-8 encoding of one character. */
  function Utf8Decode(bs: seq<int>): int {
    if |bs| == 1 then bs[0]
    else if |bs| == 2 then (bs[0] - 0xC0) * 0x40 + (bs[1] - 0x80)
    else if |bs| == 3 then ((bs[0] - 0xE0) * 0x40 + (bs[1] - 0x80)) * 0x40 + (bs[2] - 0x80)
    else if |bs| == 4 then (((bs[0] - 0xF0) * 0x40 + (bs[1] - 0x80)) * 0x40 + (bs[2] - 0x80)) * 0x40 + (bs[3] - 0x80)
    else 0
  }

  /** Decoding the encoding gives the character back. */
  lemma Utf8RoundTrip(c: char)
    ensures Utf8Decode(Utf8(c)) == c as int
  {
    var n := c as int;
    var g1, g2, g3 := n / 0x40, n / 0x40 / 0x40, n / 0x40 / 0x40 / 0x40;
    assert n == g1 * 0x40 + n % 0x40;
    assert g1 == g2 * 0x40 + g1 % 0x40;
    assert g2 == g3 * 0x40 + g2 % 0x40;
  }

  /** A character outside ASCII is several bytes, the first of them above
      0x7F; U+00E9 and U+20AC as two examples. */
  lemma Utf8Examples()
    ensures Utf8('a') == [0x61]
    ensures Utf8('\U{E9}') == [0xC3, 0xA9]
    ensures Utf8('\U{20AC}') == [0xE2, 0x82, 0xAC]
  {
  }
}

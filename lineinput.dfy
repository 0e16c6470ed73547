/**
 * getUserInput of the bufio-based note programs: read one line from standard
 * input with ReadString('\n'), give up with "" on a read error, and strip one
 * trailing "\n" and then one trailing "\r".
 */
module LineInput {
  import opened Common

  /** What ReadString('\n') hands back: the text read, the unread rest of the input, and whether it hit end of input. */
  datatype ReadResult = ReadResult(text: string, rest: string, eof: bool)

  /** The position of the first "\n" in `s`, or |s| when there is none. */
  function NewlineIndex(s: string): (i: nat)
    ensures i <= |s|
    ensures i < |s| ==> s[i] == '\n'
    ensures forall j :: 0 <= j < i ==> s[j] != '\n'
  {
    if s == [] || s[0] == '\n' then 0 else 1 + NewlineIndex(s[1..])
  }

  /**
   * bufio.Reader.ReadString('\n') on the not yet read part of standard input:
   * everything up to and including the first "\n", or, when there is none, all
   * of it together with io.EOF.
   */
  function ReadString(input: string): (r: ReadResult)
    ensures r.text + r.rest == input
    ensures r.eof <==> '\n' !in input
    ensures r.eof ==> r.rest == []
    ensures !r.eof ==> r.text != [] && Last(r.text) == '\n' && '\n' !in r.text[..|r.text| - 1]
  {
    var i := NewlineIndex(input);
    if i == |input| then ReadResult(input, [], true)
    else
      assert input[..i + 1] + input[i + 1..] == input;
      assert input[..i + 1][..i] == input[..i];
      ReadResult(input[..i + 1], input[i + 1..], false)
  }

  /** A line ended by "\n" is read exactly, and the input after it stays unread. */
  lemma ReadStringLine(line: string, rest: string)
    requires '\n' !in line
    ensures ReadString(line + "\n" + rest) == ReadResult(line + "\n", rest, false)
  {
    var input := line + "\n" + rest;
    assert input[|line|] == '\n';
    forall j | 0 <= j < |line|
      ensures input[j] != '\n'
    {
      assert input[j] == line[j];
    }
    assert NewlineIndex(input) == |line|;
    assert input[..|line| + 1] == line + "\n";
    assert input[|line| + 1..] == rest;
  }

  predicate HasSuffix(s: string, suffix: string) {
    |suffix| <= |s| && s[|s| - |suffix|..] == suffix
  }

  /** strings.TrimSuffix: drop one copy of `suffix` from the end of `s` when it is there. */
  function TrimSuffix(s: string, suffix: string): (r: string)
    ensures HasSuffix(s, suffix) ==> r + suffix == s
    ensures !HasSuffix(s, suffix) ==> r == s
  {
    if HasSuffix(s, suffix) then s[..|s| - |suffix|] else s
  }

  /** Trimming a one-character suffix drops the last character exactly when it is that character. */
  lemma TrimOne(s: string, ch: char)
    ensures TrimSuffix(s, [ch]) == if s != [] && Last(s) == ch then s[..|s| - 1] else s
  {
    if s != [] && Last(s) == ch {
      assert HasSuffix(s, [ch]);
    }
  }

  /** Trimming "\n" and then "\r" removes one of the four line endings, and nothing when the text ends in neither. */
  lemma TrimLineEnding(text: string)
    ensures var r := TrimSuffix(TrimSuffix(text, "\n"), "\r");
            r <= text && (text[|r|..] == "" || text[|r|..] == "\n" || text[|r|..] == "\r" || text[|r|..] == "\r\n") &&
            (r == text <==> text == [] || (Last(text) != '\n' && Last(text) != '\r'))
  {
    var noLf := TrimSuffix(text, "\n");
    TrimOne(text, '\n');
    TrimOne(noLf, '\r');
    var r := TrimSuffix(noLf, "\r");
    if text != [] && Last(text) == '\n' {
      if noLf != [] && Last(noLf) == '\r' {
        assert r == text[..|text| - 2];
        assert text[|r|..] == "\r\n";
      } else {
        assert text[|r|..] == "\n";
      }
    } else if text != [] && Last(text) == '\r' {
      assert text[|r|..] == "\r";
    }
  }

  /** The two trims getUserInput applies to the text ReadString returned. */
  function CleanLine(text: string): (r: string)
    ensures r <= text
    ensures text[|r|..] in {"", "\n", "\r", "\r\n"}
    ensures r == text <==> text == [] || (Last(text) != '\n' && Last(text) != '\r')
  {
    TrimLineEnding(text);
    TrimSuffix(TrimSuffix(text, "\n"), "\r")
  }

  /** A Windows line ending is removed completely. */
  lemma CleanCrLf(line: string)
    ensures CleanLine(line + "\r\n") == line
  {
    assert HasSuffix(line + "\r\n", "\n") && (line + "\r\n")[..|line| + 1] == line + "\r";
    assert HasSuffix(line + "\r", "\r") && (line + "\r")[..|line|] == line;
  }

  /** A Unix line ending is removed, and nothing else unless the line itself ends in "\r". */
  lemma CleanLf(line: string)
    requires line == [] || Last(line) != '\r'
    ensures CleanLine(line + "\n") == line
  {
    assert HasSuffix(line + "\n", "\n") && (line + "\n")[..|line|] == line;
  }

  /** A lone trailing "\r" is removed by the second trim. */
  lemma CleanCr(line: string)
    ensures CleanLine(line + "\r") == line
  {
    assert !HasSuffix(line + "\r", "\n");
    assert HasSuffix(line + "\r", "\r") && (line + "\r")[..|line|] == line;
  }

  /** Only one terminator goes: of two trailing "\n" the first survives. */
  lemma OnlyOneNewlineRemoved(s: string)
    ensures CleanLine(s + "\n\n") == s + "\n"
  {
    assert s + "\n\n" == (s + "\n") + "\n";
    CleanLf(s + "\n");
  }

  /** "Hello World" with each kind of line ending comes back as "Hello World". */
  lemma HelloWorldLf()
    ensures CleanLine("Hello World\n") == "Hello World"
  {
    CleanLf("Hello World");
  }

  lemma HelloWorldCrLf()
    ensures CleanLine("Hello World\r\n") == "Hello World"
  {
    CleanCrLf("Hello World");
  }

  lemma HelloWorldCr()
    ensures CleanLine("Hello World\r") == "Hello World"
  {
    CleanCr("Hello World");
  }

  /** Leading, interior and trailing spaces survive. */
  lemma SpacesSurvive()
    ensures CleanLine("  Spaces  Work  \n") == "  Spaces  Work  "
  {
    CleanLf("  Spaces  Work  ");
  }

  /**
   * getUserInput after its prompt: the cleaned line and the input left unread.
   * A read error (no "\n" before end of input) yields "" and the partial text
   * read before end of input is dropped.
   */
  function GetUserInput(input: string): (r: (string, string))
    ensures '\n' !in input ==> r == ("", "")
    ensures '\n' !in r.0
    ensures |r.0| + |r.1| < |input| || input == []
    ensures input[|input| - |r.1|..] == r.1
  {
    var rd := ReadString(input);
    if rd.eof then ("", "")
    else
      var value := CleanLine(rd.text);
      assert value <= rd.text[..|rd.text| - 1];
      (value, rd.rest)
  }

  /** One full line becomes the value, terminators removed, and the rest of the input is left for the next read. */
  lemma GetUserInputLine(line: string, rest: string)
    requires '\n' !in line
    ensures GetUserInput(line + "\n" + rest) == (CleanLine(line + "\n"), rest)
  {
    ReadStringLine(line, rest);
  }
}

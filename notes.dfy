/**
 * The note package (note/note.go in the struct and interface lessons):
 * the validating constructor New, the file name Save derives from a title,
 * and Save's marshal-then-write sequence.
 */
module Notes {
  import opened Common

  /** A note: title and content as the user gave them, and the clock reading taken by New. */
  datatype Note = Note(title: string, content: string, createdAt: Instant)

  /** Note{}, the zero value New returns together with its error. */
  const ZeroNote: Note := Note("", "", ZeroInstant)

  const InvalidInput: string := "Invalid input."

  /** What every note handed out by New satisfies: both text fields are non-empty. */
  predicate Valid(n: Note) {
    n.title != "" && n.content != ""
  }

  /**
   * note.New. Only the empty string is rejected: whitespace-only text passes.
   * `now` is the value time.Now() returned during the call.
   */
  function New(title: string, content: string, now: Instant): (r: (Note, Option<string>))
    ensures r.1.Some? <==> title == "" || content == ""
    ensures r.1.Some? ==> r.0 == ZeroNote && r.1 == Some(InvalidInput)
    ensures r.1.None? ==> Valid(r.0) && r.0.title == title && r.0.content == content && r.0.createdAt == now
  {
    if title == "" || content == "" then (ZeroNote, Some(InvalidInput))
    else (Note(title, content, now), None)
  }

  lemma WhitespaceIsAccepted(now: Instant)
    ensures New(" ", "\t", now) == (Note(" ", "\t", now), None)
  {
  }

  // ---------------------------------------------------------------- Display

  const DisplayHead: string := "Your note titled "
  const DisplayMid: string := " has the following content:\n\n"

  /** What Display prints: the title, then the content on its own paragraph. The creation time is not shown. */
  function Display(n: Note): (r: string)
    ensures |r| == |DisplayHead| + |n.title| + |DisplayMid| + |n.content| + 2
    ensures r[..|DisplayHead|] == DisplayHead && r[|r| - 2..] == "\n\n"
  {
    DisplayHead + n.title + DisplayMid + n.content + "\n\n"
  }

  /** Display shows title and content verbatim, at positions fixed by the title's length. */
  lemma DisplayShowsNote(n: Note)
    ensures Display(n)[|DisplayHead|..|DisplayHead| + |n.title|] == n.title
    ensures Display(n)[|DisplayHead| + |n.title| + |DisplayMid|..|Display(n)| - 2] == n.content
    ensures Display(n) == Display(Note(n.title, n.content, ZeroInstant))
  {
    var head := DisplayHead + n.title;
    assert Display(n) == head + (DisplayMid + n.content + "\n\n");
    assert Display(n)[..|head|] == head;
    var body := head + DisplayMid + n.content;
    assert Display(n) == body + "\n\n";
    assert Display(n)[..|body|] == body;
  }

  // ---------------------------------------------------------------- file names

  /** strings.ToLower on one character, restricted to ASCII letters. */
  function LowerChar(c: char): char {
    if 'A' <= c <= 'Z' then (c as int + 32) as char else c
  }

  /** strings.ToLower (ASCII case mapping only). */
  function ToLower(s: string): (r: string)
    ensures |r| == |s|
    ensures forall i :: 0 <= i < |s| ==> r[i] == LowerChar(s[i])
  {
    if s == [] then [] else ToLower(s[..|s| - 1]) + [LowerChar(s[|s| - 1])]
  }

  /** strings.ReplaceAll with a one-character pattern and a one-character replacement. */
  function ReplaceAll(s: string, from: char, to: char): (r: string)
    ensures |r| == |s|
    ensures forall i :: 0 <= i < |s| ==> r[i] == (if s[i] == from then to else s[i])
  {
    if s == [] then [] else ReplaceAll(s[..|s| - 1], from, to) + [if s[|s| - 1] == from then to else s[|s| - 1]]
  }

  /** What one title character becomes in the file name. */
  function Canon(c: char): char {
    LowerChar(if c == ' ' then '_' else c)
  }

  const JsonExtension: string := ".json"

  /** The stem Save derives: every " " replaced by "_", then lower-cased. */
  function FileStem(title: string): (r: string)
    ensures |r| == |title|
    ensures forall i :: 0 <= i < |title| ==> r[i] == Canon(title[i])
  {
    ToLower(ReplaceAll(title, ' ', '_'))
  }

  /** The name Save writes to: the stem followed by ".json". */
  function FileName(title: string): (r: string)
    ensures |r| == |title| + |JsonExtension|
    ensures r[..|title|] == FileStem(title) && r[|title|..] == JsonExtension
  {
    FileStem(title) + JsonExtension
  }

  lemma ShoppingListFileName()
    ensures FileName("My Shopping List") == "my_shopping_list.json"
  {
  }

  lemma FirstNoteFileName()
    ensures FileName("My First Note") == "my_first_note.json"
  {
  }

  /** The file name always ends in ".json", is five characters longer than the title, and its stem has no space. */
  lemma FileNameShape(title: string)
    ensures |FileName(title)| == |title| + 5
    ensures FileName(title)[|title|..] == ".json"
    ensures FileName(title)[..|title|] == FileStem(title)
    ensures ' ' !in FileStem(title)
  {
    var stem := FileStem(title);
    forall i | 0 <= i < |stem|
      ensures stem[i] != ' '
    {
      CanonIsNotSpace(title[i]);
    }
  }

  lemma CanonIsNotSpace(c: char)
    ensures Canon(c) != ' '
  {
  }

  /** Only " " is rewritten: any other character survives apart from ASCII case. */
  lemma OnlySpacesRewritten(title: string)
    ensures forall i :: 0 <= i < |title| && title[i] != ' ' ==> FileStem(title)[i] == LowerChar(title[i])
    ensures (forall i :: 0 <= i < |title| ==> title[i] != ' ' && !('A' <= title[i] <= 'Z')) ==> FileStem(title) == title
  {
  }

  /** Deriving a stem from a derived stem changes nothing. */
  lemma FileStemIdempotent(title: string)
    ensures FileStem(FileStem(title)) == FileStem(title)
  {
    var stem := FileStem(title);
    forall i | 0 <= i < |stem|
      ensures FileStem(stem)[i] == stem[i]
    {
      assert stem[i] == Canon(title[i]);
    }
  }

  /** Two titles share a file exactly when they agree character by character up to case and " " versus "_". */
  lemma SameFileName(a: string, b: string)
    ensures FileName(a) == FileName(b) <==> |a| == |b| && forall i :: 0 <= i < |a| ==> Canon(a[i]) == Canon(b[i])
  {
    if FileName(a) == FileName(b) {
      FileNameShape(a);
      FileNameShape(b);
      assert |a| == |b|;
      assert FileStem(a) == FileName(a)[..|a|] == FileName(b)[..|b|] == FileStem(b);
      forall i | 0 <= i < |a|
        ensures Canon(a[i]) == Canon(b[i])
      {
        assert FileStem(a)[i] == FileStem(b)[i];
      }
    }
    if |a| == |b| && forall i :: 0 <= i < |a| ==> Canon(a[i]) == Canon(b[i]) {
      assert FileStem(a) == FileStem(b);
    }
  }

  /** "My Note", "my_note" and "MY NOTE" are all saved to my_note.json. */
  lemma MixedCaseTitleFileName()
    ensures FileName("My Note") == "my_note.json"
  {
  }

  lemma UnderscoreTitleFileName()
    ensures FileName("my_note") == "my_note.json"
  {
  }

  lemma UpperCaseTitleFileName()
    ensures FileName("MY NOTE") == "my_note.json"
  {
  }

  // ---------------------------------------------------------------- Save

  /** The call os.WriteFile(name, data, 0644). */
  datatype FileWrite = FileWrite(name: string, data: seq<byte>)

  /** What Save did: the write it attempted (if any) and the error it returned. */
  datatype SaveResult = SaveResult(attempted: Option<FileWrite>, err: Option<string>)

  /**
   * Note.Save. `marshalled` is what json.Marshal(note) returned and `writeErr`
   * what os.WriteFile returned; both are foreign calls.
   */
  function Save(n: Note, marshalled: Result<seq<byte>>, writeErr: Option<string>): (r: SaveResult)
    ensures marshalled.Err? ==> r.attempted == None && r.err == Some(marshalled.msg)
    ensures marshalled.Ok? ==> r.attempted == Some(FileWrite(FileName(n.title), marshalled.value)) && r.err == writeErr
    ensures r.err == None <==> marshalled.Ok? && writeErr.None?
  {
    match marshalled
    case Err(msg) => SaveResult(None, Some(msg))
    case Ok(json) => SaveResult(Some(FileWrite(FileName(n.title), json)), writeErr)
  }

  /** The working directory: file name to contents. */
  type Files = map<string, seq<byte>>

  /**
   * The directory after a Save: a successful write creates or truncates the file.
   * A failed write is taken to leave the directory as it was.
   */
  function Commit(fs: Files, r: SaveResult): (fs': Files)
    ensures r.err.None? && r.attempted.Some? ==>
              fs'.Keys == fs.Keys + {r.attempted.value.name} && fs'[r.attempted.value.name] == r.attempted.value.data
    ensures r.err.Some? || r.attempted.None? ==> fs' == fs
    ensures forall name :: name in fs && (r.err.Some? || r.attempted == None || name != r.attempted.value.name) ==>
              name in fs' && fs'[name] == fs[name]
  {
    if r.err.None? && r.attempted.Some? then fs[r.attempted.value.name := r.attempted.value.data] else fs
  }

  /** A failed marshal leaves every file as it was. */
  lemma MarshalFailureWritesNothing(fs: Files, n: Note, msg: string, writeErr: Option<string>)
    ensures Commit(fs, Save(n, Err(msg), writeErr)) == fs
  {
  }

  /**
   * Saving a second note whose title differs from the first only by case or
   * " " versus "_" overwrites the first note's file: only the second's data remains.
   */
  lemma LaterSaveOverwrites(fs: Files, n1: Note, n2: Note, d1: seq<byte>, d2: seq<byte>)
    requires |n1.title| == |n2.title|
    requires forall i :: 0 <= i < |n1.title| ==> Canon(n1.title[i]) == Canon(n2.title[i])
    ensures Commit(Commit(fs, Save(n1, Ok(d1), None)), Save(n2, Ok(d2), None)) == fs[FileName(n1.title) := d2]
  {
    SameFileName(n1.title, n2.title);
  }
}

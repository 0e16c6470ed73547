/**
 * The main functions of the bufio-based note programs: read a title and a
 * content line (and, in the interface lessons, a todo text), build the note,
 * display it and save it, returning early at the first failure.
 *
 * A run is a function of the standard input text, the directory before the
 * run, the clock reading taken by note.New and the outcomes of the foreign
 * calls (json.Marshal, os.WriteFile and the todo package); it yields what was
 * printed and the directory afterwards.
 */
module NoteProgram {
  import opened Common
  import opened Notes
  import LineInput

  const TitlePrompt: string := "Note title:"
  const ContentPrompt: string := "Note content:"
  const TodoPrompt: string := "Todo text: "
  const NoteSaveFailed: string := "Saving the note failed."
  const NoteSaved: string := "Saving the note succeeded!"
  const TodoSaveFailed: string := "Saving the todo failed."
  const TodoSaved: string := "Saving the todo succeeded!"

  /** fmt.Println of one string. */
  function Println(s: string): string {
    s + "\n"
  }

  /** What getUserInput prints before reading: fmt.Printf("%v ", prompt). */
  function Prompt(p: string): (r: string)
    ensures |r| == |p| + 1 && r[..|p|] == p && Last(r) == ' '
  {
    p + " "
  }

  /** The two prompts getNoteData prints. */
  const NotePrompts: string := Prompt(TitlePrompt) + Prompt(ContentPrompt)

  /** The three prompts of the interface lessons: title, content, todo text. */
  const TodoNotePrompts: string := NotePrompts + Prompt(TodoPrompt)

  /** What getNoteData returns, plus the standard input still unread. */
  datatype NoteData = NoteData(title: string, content: string, rest: string)

  /** getNoteData: the title line and then the content line. */
  function GetNoteData(stdin: string): (d: NoteData)
    ensures '\n' !in stdin ==> d.title == "" && d.content == ""
    ensures '\n' !in d.title && '\n' !in d.content
  {
    var (title, afterTitle) := LineInput.GetUserInput(stdin);
    var (content, rest) := LineInput.GetUserInput(afterTitle);
    NoteData(title, content, rest)
  }

  /** getNoteData is two getUserInput calls, the second on what the first left unread. */
  lemma GetNoteDataReads(stdin: string)
    ensures var first := LineInput.GetUserInput(stdin);
            var second := LineInput.GetUserInput(first.1);
            GetNoteData(stdin) == NoteData(first.0, second.0, second.1)
  {
  }

  lemma TwoLines(a: string, b: string, c: string)
    ensures a + "\n" + b + "\n" + c == a + "\n" + (b + "\n" + c)
  {
  }

  /** Both lines in full: each value is its line with the terminator removed. */
  lemma GetNoteDataLines(titleLine: string, contentLine: string, rest: string)
    requires '\n' !in titleLine && '\n' !in contentLine
    ensures GetNoteData(titleLine + "\n" + contentLine + "\n" + rest)
         == NoteData(LineInput.CleanLine(titleLine + "\n"), LineInput.CleanLine(contentLine + "\n"), rest)
  {
    TwoLines(titleLine, contentLine, rest);
    LineInput.GetUserInputLine(titleLine, contentLine + "\n" + rest);
    LineInput.GetUserInputLine(contentLine, rest);
    GetNoteDataReads(titleLine + "\n" + contentLine + "\n" + rest);
  }

  /** What a run printed and the directory it left behind. */
  datatype Run = Run(stdout: string, files: Files)

  /** The note built from what was read, when note.New accepts it. */
  function NoteOf(d: NoteData, now: Instant): Note {
    Note(d.title, d.content, now)
  }

  predicate Accepted(d: NoteData) {
    d.title != "" && d.content != ""
  }

  /**
   * main of 01-starting-project, 16-fixes and 17-struct-tags: getNoteData,
   * note.New (print the error and stop), Display, Save (print the failure and
   * stop), then the success message.
   */
  function CreateAndSave(stdin: string, fs: Files, now: Instant, marshalled: Result<seq<byte>>, writeErr: Option<string>): (r: Run)
    ensures !Accepted(GetNoteData(stdin)) ==> r == Run(NotePrompts + Println(InvalidInput), fs)
    ensures Accepted(GetNoteData(stdin)) ==>
              var n := NoteOf(GetNoteData(stdin), now);
              r.stdout == NotePrompts + Display(n) + Println(if marshalled.Ok? && writeErr.None? then NoteSaved else NoteSaveFailed) &&
              r.files == Commit(fs, Save(n, marshalled, writeErr))
  {
    var d := GetNoteData(stdin);
    var (note, err) := New(d.title, d.content, now);
    if err.Some? then Run(NotePrompts + Println(err.value), fs)
    else
      var saved := Save(note, marshalled, writeErr);
      if saved.err.Some? then Run(NotePrompts + Display(note) + Println(NoteSaveFailed), Commit(fs, saved))
      else Run(NotePrompts + Display(note) + Println(NoteSaved), Commit(fs, saved))
  }

  /** A printed line that does not end in "!" is not the success message. */
  lemma NotSuccessLine(before: string, line: string)
    requires line != [] && Last(line) != '!'
    ensures !LineInput.HasSuffix(before + Println(line), Println(NoteSaved))
  {
    var out := before + Println(line);
    var tail := Println(NoteSaved);
    assert out[|out| - 2] == Last(line);
    assert tail[|tail| - 2] == '!';
  }

  /**
   * The run ends with "Saving the note succeeded!" exactly when the note was
   * accepted and both marshal and write succeeded.
   */
  lemma SuccessReportedIffSaved(stdin: string, fs: Files, now: Instant, marshalled: Result<seq<byte>>, writeErr: Option<string>)
    ensures LineInput.HasSuffix(CreateAndSave(stdin, fs, now, marshalled, writeErr).stdout, Println(NoteSaved))
            <==> Accepted(GetNoteData(stdin)) && marshalled.Ok? && writeErr.None?
  {
    var d := GetNoteData(stdin);
    if !Accepted(d) {
      NotSuccessLine(NotePrompts, InvalidInput);
    } else if !(marshalled.Ok? && writeErr.None?) {
      NotSuccessLine(NotePrompts + Display(NoteOf(d, now)), NoteSaveFailed);
    } else {
      var out := NotePrompts + Display(NoteOf(d, now)) + Println(NoteSaved);
      assert out[|out| - |Println(NoteSaved)|..] == Println(NoteSaved);
    }
  }

  /** Only a fully successful run changes the directory, and then the note's file holds the marshalled bytes. */
  lemma SavedFileHoldsNote(stdin: string, fs: Files, now: Instant, marshalled: Result<seq<byte>>, writeErr: Option<string>)
    ensures var r := CreateAndSave(stdin, fs, now, marshalled, writeErr);
            var ok := Accepted(GetNoteData(stdin)) && marshalled.Ok? && writeErr.None?;
            (ok ==> r.files == fs[FileName(GetNoteData(stdin).title) := marshalled.value]) &&
            (!ok ==> r.files == fs)
  {
  }

  /** Standard input that ends before a full line yields "" for the title, which note.New rejects: nothing is displayed or saved. */
  lemma UnreadableInputRejected(stdin: string, fs: Files, now: Instant, marshalled: Result<seq<byte>>, writeErr: Option<string>)
    requires '\n' !in stdin
    ensures CreateAndSave(stdin, fs, now, marshalled, writeErr) == Run(NotePrompts + Println(InvalidInput), fs)
  {
  }

  /** An empty content line stops the run with "Invalid input." after the prompts, whatever the title. */
  lemma EmptyContentRejected(titleLine: string, rest: string, fs: Files, now: Instant, marshalled: Result<seq<byte>>, writeErr: Option<string>)
    requires '\n' !in titleLine
    ensures CreateAndSave(titleLine + "\n" + "\n" + rest, fs, now, marshalled, writeErr) == Run(NotePrompts + Println(InvalidInput), fs)
  {
    assert titleLine + "\n" + "\n" + rest == titleLine + "\n" + "" + "\n" + rest;
    GetNoteDataLines(titleLine, "", rest);
    LineInput.CleanLf("");
  }

  /** main of 15-handling-long-user-input: getNoteData, note.New, and Display only. */
  function CreateAndShow(stdin: string, now: Instant): (out: string)
    ensures Accepted(GetNoteData(stdin)) ==> out == NotePrompts + Display(NoteOf(GetNoteData(stdin), now))
    ensures !Accepted(GetNoteData(stdin)) ==> out == NotePrompts + Println(InvalidInput)
  {
    var d := GetNoteData(stdin);
    var (note, err) := New(d.title, d.content, now);
    if err.Some? then NotePrompts + Println(err.value)
    else NotePrompts + Display(note)
  }

  /** The same run as CreateAndSave up to the save: that program's output begins with this one's. */
  lemma ShowIsPrefixOfSave(stdin: string, fs: Files, now: Instant, marshalled: Result<seq<byte>>, writeErr: Option<string>)
    ensures CreateAndShow(stdin, now) <= CreateAndSave(stdin, fs, now, marshalled, writeErr).stdout
  {
    var show := CreateAndShow(stdin, now);
    var save := CreateAndSave(stdin, fs, now, marshalled, writeErr).stdout;
    if Accepted(GetNoteData(stdin)) {
      assert save[..|show|] == show;
    }
  }

  // ---------------------------------------------------------------- interface lessons

  /**
   * The todo package on one run (its source is not part of this model): the
   * error todo.New returned for the todo text, what todo.Display printed, and
   * the error todo.Save returned.
   */
  datatype TodoCalls = TodoCalls(newErr: Option<string>, shown: string, saveErr: Option<string>)

  /** main of 03-creating-a-first-interface: the todo is created, shown and saved before the note. */
  function TodoThenNote(stdin: string, fs: Files, now: Instant, todo: TodoCalls, marshalled: Result<seq<byte>>, writeErr: Option<string>): (r: Run)
    ensures todo.newErr.Some? ==> r == Run(TodoNotePrompts + Println(todo.newErr.value), fs)
    ensures todo.newErr.None? && !Accepted(GetNoteData(stdin)) ==> r == Run(TodoNotePrompts + Println(InvalidInput), fs)
    ensures todo.newErr.None? && Accepted(GetNoteData(stdin)) && todo.saveErr.Some? ==>
              r == Run(TodoNotePrompts + todo.shown + Println(TodoSaveFailed), fs)
    ensures todo.newErr.None? && Accepted(GetNoteData(stdin)) && todo.saveErr.None? ==>
              var n := NoteOf(GetNoteData(stdin), now);
              r.stdout == TodoNotePrompts + todo.shown + Println(TodoSaved) + Display(n)
                          + Println(if marshalled.Ok? && writeErr.None? then NoteSaved else NoteSaveFailed) &&
              r.files == Commit(fs, Save(n, marshalled, writeErr))
  {
    var d := GetNoteData(stdin);
    // The todo text line is read after the content; what todo.New made of it is todo.newErr.
    if todo.newErr.Some? then Run(TodoNotePrompts + Println(todo.newErr.value), fs)
    else
      var (note, err) := New(d.title, d.content, now);
      if err.Some? then Run(TodoNotePrompts + Println(err.value), fs)
      else
        var shown := TodoNotePrompts + todo.shown;
        if todo.saveErr.Some? then Run(shown + Println(TodoSaveFailed), fs)
        else
          var saved := Save(note, marshalled, writeErr);
          var before := shown + Println(TodoSaved) + Display(note);
          if saved.err.Some? then Run(before + Println(NoteSaveFailed), Commit(fs, saved))
          else Run(before + Println(NoteSaved), Commit(fs, saved))
  }

  /**
   * saveData of 04-using-the-interface: call the saver's Save (here, the error
   * it returned), print the outcome and hand the error back unchanged. The
   * message speaks of "the note" whatever was saved.
   */
  function SaveData(saveErr: Option<string>): (r: (string, Option<string>))
    ensures r.1 == saveErr
    ensures saveErr.None? <==> r.0 == Println(NoteSaved)
    ensures saveErr.Some? <==> r.0 == Println(NoteSaveFailed)
  {
    if saveErr.Some? then (Println(NoteSaveFailed), saveErr)
    else (Println(NoteSaved), None)
  }

  /** main of 04-using-the-interface: as TodoThenNote, with both saves going through saveData. */
  function TodoThenNoteViaSaver(stdin: string, fs: Files, now: Instant, todo: TodoCalls, marshalled: Result<seq<byte>>, writeErr: Option<string>): (r: Run)
    ensures todo.newErr.Some? ==> r == Run(TodoNotePrompts + Println(todo.newErr.value), fs)
    ensures todo.newErr.None? && !Accepted(GetNoteData(stdin)) ==> r == Run(TodoNotePrompts + Println(InvalidInput), fs)
    ensures todo.newErr.None? && Accepted(GetNoteData(stdin)) && todo.saveErr.Some? ==>
              r == Run(TodoNotePrompts + todo.shown + Println(NoteSaveFailed), fs)
    ensures todo.newErr.None? && Accepted(GetNoteData(stdin)) && todo.saveErr.None? ==>
              var n := NoteOf(GetNoteData(stdin), now);
              r.stdout == TodoNotePrompts + todo.shown + Println(NoteSaved) + Display(n)
                          + Println(if marshalled.Ok? && writeErr.None? then NoteSaved else NoteSaveFailed) &&
              r.files == Commit(fs, Save(n, marshalled, writeErr))
  {
    var d := GetNoteData(stdin);
    // As in TodoThenNote, the todo text's validation is todo.newErr.
    if todo.newErr.Some? then Run(TodoNotePrompts + Println(todo.newErr.value), fs)
    else
      var (note, err) := New(d.title, d.content, now);
      if err.Some? then Run(TodoNotePrompts + Println(err.value), fs)
      else
        var (todoMsg, todoErr) := SaveData(todo.saveErr);
        var shown := TodoNotePrompts + todo.shown + todoMsg;
        if todoErr.Some? then Run(shown, fs)
        else
          var saved := Save(note, marshalled, writeErr);
          var (noteMsg, _) := SaveData(saved.err);
          Run(shown + Display(note) + noteMsg, Commit(fs, saved))
  }

  /**
   * The two interface lessons differ only in the todo's save messages: with
   * every note-worded "todo" line replaced, 04 prints what 03 prints.
   */
  lemma SaverOnlyRewordsTodoMessages(stdin: string, fs: Files, now: Instant, todo: TodoCalls, marshalled: Result<seq<byte>>, writeErr: Option<string>)
    ensures TodoThenNoteViaSaver(stdin, fs, now, todo, marshalled, writeErr).files == TodoThenNote(stdin, fs, now, todo, marshalled, writeErr).files
    ensures todo.newErr.Some? || !Accepted(GetNoteData(stdin)) ==>
              TodoThenNoteViaSaver(stdin, fs, now, todo, marshalled, writeErr) == TodoThenNote(stdin, fs, now, todo, marshalled, writeErr)
  {
  }
}

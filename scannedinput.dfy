/**
 * 13-getting-user-input: the note data is read with fmt.Scanln, each read is
 * validated on its own, and the first failure is propagated to main, which
 * prints it and stops.
 *
 * Standard input is given as the values the successive Scanln calls store in
 * their variable; a call past the last of them leaves the variable "".
 */
module ScannedInput {
  import opened Common

  const InvalidInput: string := "Invalid input."
  const TitlePrompt: string := "Note title:"
  const ContentPrompt: string := "Note content:"

  /** The value the k-th Scanln call stores. */
  function Scanned(scans: seq<string>, k: nat): (value: string)
    ensures k < |scans| ==> value == scans[k]
    ensures k >= |scans| ==> value == ""
  {
    if k < |scans| then scans[k] else ""
  }

  /** getUserInput after its prompt: an empty value is an error, any other is returned as it is. */
  function GetUserInput(value: string): (r: (string, Option<string>))
    ensures r.1.Some? <==> value == ""
    ensures r.1.Some? ==> r == ("", Some(InvalidInput))
    ensures r.1.None? ==> r.0 == value
  {
    if value == "" then ("", Some(InvalidInput)) else (value, None)
  }

  /** What getNoteData returns, and how many Scanln calls it made. */
  datatype NoteData = NoteData(title: string, content: string, err: Option<string>, scansUsed: nat)

  /** getNoteData: the title, then (only if the title was valid) the content. */
  function GetNoteData(scans: seq<string>): (d: NoteData)
    ensures d.err.None? <==> Scanned(scans, 0) != "" && Scanned(scans, 1) != ""
    ensures d.err.Some? ==> d.title == "" && d.content == "" && d.err == Some(InvalidInput)
    ensures d.err.None? ==> d.title == Scanned(scans, 0) && d.content == Scanned(scans, 1)
    ensures d.scansUsed == if Scanned(scans, 0) == "" then 1 else 2
  {
    var (title, titleErr) := GetUserInput(Scanned(scans, 0));
    if titleErr.Some? then NoteData("", "", titleErr, 1)
    else
      var (content, contentErr) := GetUserInput(Scanned(scans, 1));
      if contentErr.Some? then NoteData("", "", contentErr, 2)
      else NoteData(title, content, None, 2)
  }

  /**
   * main: what is printed. Each prompt is printed with fmt.Print, so without a
   * trailing space; the content prompt appears only when the title was read.
   */
  function Main(scans: seq<string>): (out: string)
    ensures Scanned(scans, 0) == "" ==> out == TitlePrompt + InvalidInput + "\n"
    ensures Scanned(scans, 0) != "" && Scanned(scans, 1) == "" ==> out == TitlePrompt + ContentPrompt + InvalidInput + "\n"
    ensures Scanned(scans, 0) != "" && Scanned(scans, 1) != "" ==> out == TitlePrompt + ContentPrompt
  {
    var d := GetNoteData(scans);
    var prompts := if d.scansUsed == 1 then TitlePrompt else TitlePrompt + ContentPrompt;
    if d.err.Some? then prompts + d.err.value + "\n" else prompts
  }

  /** After an empty title nothing else is read: whatever follows it, the run is the same. */
  lemma FailedTitleStopsReading(later: seq<string>)
    ensures GetNoteData([""] + later) == NoteData("", "", Some(InvalidInput), 1)
    ensures Main([""] + later) == Main([""])
  {
    assert Scanned([""] + later, 0) == "";
  }

  /** A failed content read discards the title that was already read. */
  lemma FailedContentDiscardsTitle(title: string)
    requires title != ""
    ensures GetNoteData([title]) == NoteData("", "", Some(InvalidInput), 2)
    ensures GetNoteData([title, ""]) == GetNoteData([title])
  {
  }
}

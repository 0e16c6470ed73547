# Go teaching programs: notes, users and the Go Bank menu

This project models the deterministic core of the lesson programs in the
`go-complete-resource` course repository. It covers four cores and proves
properties about each:

- **Note record** (`note/note.go`, module `Notes`):
  - the validating constructor `New`;
  - the text `Display` prints;
  - the file name `Save` derives from a title (spaces become underscores, then lower-case, then `.json`);
  - `Save`'s marshal-then-write sequence, together with its effect on the working directory.
- **Note programs** (`main.go` of the note and interface lessons):
  - `getUserInput` is modelled in `LineInput`: read one line with `bufio.Reader.ReadString('\n')`, give `""` on a read error, and strip one `"\n"` and then one `"\r"`;
  - the early-return `main` flows are modelled in `NoteProgram` as functions from the standard input text and the outcomes of the foreign calls to what is printed and the directory afterwards;
  - the `fmt.Scanln` variant with fail-fast error propagation is modelled in `ScannedInput`.
- **Users** (`user/user.go` and the `structs.go` files with a `user` type, module `Users`):
  - `User` is a class whose `ClearUserName` empties both names in place;
  - `New` is the validating constructor;
  - `Admin` holds email, password and the embedded user with the fixed names `ADMIN`/`ADMIN`/`---`.
- **Go Bank** (the `bank.go` files):
  - `BankMenu` holds the checks of one menu choice: a deposit must be positive, and a withdrawal must be positive and at most the balance. It also holds three recursive specifications of how the versions chain rounds:
    - `Strict`: 19, which stops at the first rejection and runs at most 200 rounds;
    - `Mixed`: 20, which continues after a bad deposit, returns on a bad withdrawal and breaks on exit;
    - `Lenient`: 21 and later, which continue after any rejection and return on exit, optionally writing the balance after each accepted operation.
  - `BankPrograms` holds one imperative method per program version. Each method is proved equal to its specification. It also holds the two balance loaders.

Standard input is a value, not a stream:
- the remaining text, for the `bufio` programs;
- the sequence of values `Scanln` stores, for 13-getting-user-input;
- one `Command` (choice and amount) per menu round, for the bank.

Once input runs out, `fmt.Scan` leaves its variables at zero. A bank round past the end therefore reads choice 0 and takes the exit branch.

The clock (`time.Now`), `json.Marshal`, `os.WriteFile`, `os.ReadFile`, `strconv.ParseFloat`, the `todo` and `fileops` packages and `randomdata.PhoneNumber` are foreign. The model takes what they returned as parameters.

Where a comment's sample output disagrees with the code, the model follows the code. The sample output in 07-using-creation-constructor-functions/structs.go shows one space before the birth date after `clearUserName`. `fmt.Println("", "", birthDate)` prints two, and `Users.ShowClearShow` states two.

## Model

| member | source | states |
|---|---|---|
| Notes.New | code/06-interfaces/01-starting-project/note/note.go:226-286 | an error exactly when title or content is ""; the error is the zero Note with "Invalid input."; otherwise a valid note holding title, content and clock reading verbatim |
| Notes.WhitespaceIsAccepted | code/05-structs-custom-types/17-struct-tags/note/note.go:151-164 | whitespace-only title and content are accepted unchanged with no error |
| Notes.Display | code/06-interfaces/01-starting-project/note/note.go:73-84 | the displayed text starts with "Your note titled ", ends with a blank line, and is exactly as long as the fixed text plus title and content |
| Notes.DisplayShowsNote | code/06-interfaces/01-starting-project/note/note.go:73-84 | the displayed text contains the title and the content verbatim at fixed offsets, and does not depend on the creation time |
| Notes.ToLower | code/06-interfaces/01-starting-project/note/note.go:124 | same length; every character is lower-cased on its own (ASCII) |
| Notes.ReplaceAll | code/06-interfaces/01-starting-project/note/note.go:120 | same length; exactly the occurrences of the pattern character are replaced, everything else kept |
| Notes.FileStem | code/06-interfaces/01-starting-project/note/note.go:120-124 | same length as the title; each character is mapped to its canonical form (space to underscore, then lower case) |
| Notes.FileName | code/06-interfaces/01-starting-project/note/note.go:120-128 | the file name is the stem of the title followed by ".json", and is exactly five characters longer than the title |
| Notes.ShoppingListFileName | code/06-interfaces/01-starting-project/note/note.go:120-128 | "My Shopping List" is saved to my_shopping_list.json |
| Notes.FirstNoteFileName | code/05-structs-custom-types/17-struct-tags/note/note.go:117-145 | "My First Note" is saved to my_first_note.json |
| Notes.FileNameShape | code/06-interfaces/01-starting-project/note/note.go:120-128 | the file name is the stem followed by ".json", five characters longer than the title, and the stem has no space |
| Notes.CanonIsNotSpace | code/06-interfaces/01-starting-project/note/note.go:120-124 | no title character becomes a space in the file name |
| Notes.OnlySpacesRewritten | code/06-interfaces/01-starting-project/note/note.go:120-124 | every character other than a space is kept apart from ASCII case; a title with no space and no capital is its own stem |
| Notes.FileStemIdempotent | code/06-interfaces/01-starting-project/note/note.go:120-124 | deriving a stem from a stem changes nothing |
| Notes.SameFileName | code/06-interfaces/01-starting-project/note/note.go:120-128 | two titles share a file name if and only if they have the same length and agree character by character up to case and space versus underscore |
| Notes.MixedCaseTitleFileName | code/06-interfaces/03-creating-a-first-interface/note/note.go:49-62 | "My Note" is saved to my_note.json |
| Notes.UnderscoreTitleFileName | code/06-interfaces/03-creating-a-first-interface/note/note.go:49-62 | "my_note" is saved to my_note.json as well |
| Notes.UpperCaseTitleFileName | code/06-interfaces/03-creating-a-first-interface/note/note.go:49-62 | "MY NOTE" is saved to my_note.json as well |
| Notes.Save | code/06-interfaces/01-starting-project/note/note.go:113-193 | a marshal error is returned and no write is attempted; otherwise the marshalled bytes are written to the derived file name and the write error is returned; no error if and only if both calls succeed |
| Notes.Commit | code/06-interfaces/01-starting-project/note/note.go:188 | a successful write creates or replaces exactly that file; every other file, and every file after a failed save, is kept |
| Notes.MarshalFailureWritesNothing | code/06-interfaces/01-starting-project/note/note.go:154-161 | a failed marshal leaves the directory as it was |
| Notes.LaterSaveOverwrites | code/06-interfaces/01-starting-project/note/note.go:120-128 | saving two notes whose titles differ only by case or space versus underscore leaves one file holding the second note's data |
| LineInput.NewlineIndex | code/06-interfaces/01-starting-project/main.go:241 | the position of the first "\n", or the length when there is none: the character there is "\n" and none before it is |
| LineInput.ReadString | code/06-interfaces/01-starting-project/main.go:241 | text read plus rest is the input; end of input is reported when there is no "\n" in it, and then nothing is left; otherwise the text ends at the first "\n" |
| LineInput.ReadStringLine | code/06-interfaces/01-starting-project/main.go:241 | a line ended by "\n" is read exactly, and what follows stays unread |
| LineInput.TrimSuffix | code/06-interfaces/01-starting-project/main.go:276 | with the suffix present the result followed by the suffix is the input; otherwise the input is unchanged |
| LineInput.TrimOne | code/06-interfaces/01-starting-project/main.go:276 | trimming a one-character suffix drops the last character exactly when it is that character, and otherwise keeps the text |
| LineInput.TrimLineEnding | code/06-interfaces/01-starting-project/main.go:276-283 | trimming "\n" and then "\r" keeps a prefix and removes "", "\n", "\r" or "\r\n"; nothing is removed if and only if the text ends in neither character |
| LineInput.CleanLine | code/06-interfaces/01-starting-project/main.go:276-283 | the result is a prefix of the text, and what was removed is "", "\n", "\r" or "\r\n"; the text is unchanged if and only if it does not end in "\n" or "\r" |
| LineInput.CleanCrLf | code/05-structs-custom-types/15-handling-long-user-input/main.go:137-144 | a Windows line ending is removed completely |
| LineInput.CleanLf | code/05-structs-custom-types/15-handling-long-user-input/main.go:137-138 | a Unix line ending is removed and nothing more, unless the line itself ends in "\r" |
| LineInput.CleanCr | code/05-structs-custom-types/15-handling-long-user-input/main.go:143-144 | a lone trailing "\r" is removed |
| LineInput.OnlyOneNewlineRemoved | code/06-interfaces/01-starting-project/main.go:276 | of two trailing newlines only the last is removed |
| LineInput.HelloWorldLf | code/05-structs-custom-types/15-handling-long-user-input/main.go:137-138 | "Hello World\n" becomes "Hello World" |
| LineInput.HelloWorldCrLf | code/05-structs-custom-types/15-handling-long-user-input/main.go:137-144 | "Hello World\r\n" becomes "Hello World" |
| LineInput.HelloWorldCr | code/05-structs-custom-types/15-handling-long-user-input/main.go:143-144 | "Hello World\r" becomes "Hello World" |
| LineInput.SpacesSurvive | code/05-structs-custom-types/16-fixes/main.go:155-235 | leading, inner and trailing spaces are kept |
| LineInput.GetUserInput | code/06-interfaces/01-starting-project/main.go:186-287 | input with no line ending gives "" (read error); the value never holds "\n"; a non-empty input is consumed by at least one character; what is left is a suffix of the input |
| LineInput.GetUserInputLine | code/05-structs-custom-types/17-struct-tags/main.go:119-175 | one full line is cleaned, and the input after it is left for the next read |
| NoteProgram.GetNoteData | code/06-interfaces/01-starting-project/main.go:145-157 | with no complete line both values are ""; neither value contains "\n" |
| NoteProgram.Prompt | code/06-interfaces/01-starting-project/main.go:196 | the prompt is printed followed by exactly one space |
| NoteProgram.GetNoteDataReads | code/06-interfaces/01-starting-project/main.go:145-157 | the title is the first value getUserInput reads and the content the second, read from what the first read left |
| NoteProgram.GetNoteDataLines | code/05-structs-custom-types/16-fixes/main.go:121-134 | two full lines give their cleaned texts as title and content, and the rest of the input stays unread |
| NoteProgram.CreateAndSave | code/06-interfaces/01-starting-project/main.go:32-123 | a rejected note prints the prompts and "Invalid input." and changes no file; an accepted note prints the prompts, its display and the save outcome, and the directory is what the save leaves |
| NoteProgram.NotSuccessLine | code/05-structs-custom-types/16-fixes/main.go:14-108 | output whose last line does not end in "!" does not end with the success message |
| NoteProgram.SuccessReportedIffSaved | code/05-structs-custom-types/17-struct-tags/main.go:22-76 | the run ends with "Saving the note succeeded!" if and only if the note was accepted and both marshal and write succeeded |
| NoteProgram.SavedFileHoldsNote | code/06-interfaces/01-starting-project/main.go:32-123 | the directory changes only on a fully successful run, and then only the note's file, which holds the marshalled bytes |
| NoteProgram.UnreadableInputRejected | code/06-interfaces/01-starting-project/main.go:254-256 | standard input with no line ending gives the "Invalid input." run and changes no file |
| NoteProgram.EmptyContentRejected | code/05-structs-custom-types/16-fixes/main.go:14-108 | an empty content line stops the run with "Invalid input.", whatever the title |
| NoteProgram.CreateAndShow | code/05-structs-custom-types/15-handling-long-user-input/main.go:22-55 | an accepted note is displayed after the prompts; a rejected one prints "Invalid input." |
| NoteProgram.ShowIsPrefixOfSave | code/05-structs-custom-types/15-handling-long-user-input/main.go:22-55 | the display-only program's output is a prefix of the saving program's output on the same input |
| NoteProgram.TodoThenNote | code/06-interfaces/03-creating-a-first-interface/main.go:61-143 | a todo error stops the run first; then a note error; a failed todo save skips the note's display and save; otherwise the todo success line is followed by the note's display and save outcome; only the note's save changes the directory |
| NoteProgram.SaveData | code/06-interfaces/04-using-the-interface/main.go:147-189 | the saver's error is returned unchanged; the note-worded success line is printed if and only if there was no error, and the failure line if and only if there was one |
| NoteProgram.TodoThenNoteViaSaver | code/06-interfaces/04-using-the-interface/main.go:36-115 | as TodoThenNote, with both saves reported through saveData's wording |
| NoteProgram.SaverOnlyRewordsTodoMessages | code/06-interfaces/04-using-the-interface/main.go:36-115 | 04 leaves the same directory as 03, and prints the same text whenever the todo or the note is rejected |
| ScannedInput.GetUserInput | code/05-structs-custom-types/13-getting-user-input/main.go:103-130 | an error if and only if the scanned value is "", and then the result is ("", "Invalid input."); otherwise the value unchanged |
| ScannedInput.Scanned | code/05-structs-custom-types/13-getting-user-input/main.go:116 | the k-th Scanln stores the k-th value typed, and "" once the values have run out |
| ScannedInput.GetNoteData | code/05-structs-custom-types/13-getting-user-input/main.go:54-86 | success if and only if both values are non-empty, returning both; any failure gives ("", "", "Invalid input."); the content is not read after a failed title |
| ScannedInput.Main | code/05-structs-custom-types/13-getting-user-input/main.go:8-40 | a failed title prints its prompt and the error; a failed content prints both prompts and the error; success prints both prompts only |
| ScannedInput.FailedTitleStopsReading | code/05-structs-custom-types/13-getting-user-input/main.go:58-67 | after an empty title nothing further is read, and what follows cannot change the run |
| ScannedInput.FailedContentDiscardsTitle | code/05-structs-custom-types/13-getting-user-input/main.go:72-80 | a failed content read discards the title that was already read |
| Users.ClearedNameIdempotent | code/05-structs-custom-types/10-struct-embedding/user/user.go:64-68 | clearing the name twice leaves what clearing once leaves |
| Users.Details | code/05-structs-custom-types/10-struct-embedding/user/user.go:50-54 | the printed line begins with the first name, ends with the line break, and is three characters (two spaces and the line break) longer than the three fields |
| Users.DetailsAfterClear | code/05-structs-custom-types/07-using-creation-constructor-functions/structs.go:18-28 | after clearing, the detail line is two spaces and the birth date |
| Users.DetailsEndWithBirthDate | code/05-structs-custom-types/10-struct-embedding/user/user.go:50-54 | the detail line shows the birth date verbatim at its end |
| Users.User.constructor | code/05-structs-custom-types/07-using-creation-constructor-functions/structs.go:36-48 | newUser stores every field as given, empty ones included |
| Users.User.OutputUserDetails | code/05-structs-custom-types/10-struct-embedding/user/user.go:50-54 | prints first name, last name and birth date separated by single spaces |
| Users.User.ClearUserName | code/05-structs-custom-types/10-struct-embedding/user/user.go:64-68 | both names become "", and birth date and creation time are unchanged |
| Users.New | code/05-structs-custom-types/10-struct-embedding/user/user.go:118-136 | nil if and only if a field is "", and then the "required" error; otherwise a fresh user holding the fields verbatim and no error |
| Users.Admin.NewAdmin | code/05-structs-custom-types/10-struct-embedding/user/user.go:84-101 | never fails; email and password are kept verbatim; the embedded user is ADMIN/ADMIN/--- with the clock reading |
| Users.Admin.ClearUserName | code/05-structs-custom-types/10-struct-embedding/user/user.go:35-40 | clearing an admin's name clears the embedded user's names only; email and password are unchanged |
| Users.ShowClearShow | code/05-structs-custom-types/06-mutation-methods/structs.go:37-67 | prints the prompts, the full detail line, then the line after clearing, which shows only the birth date |
| Users.ValidatedShowClearShow | code/05-structs-custom-types/08-constructor-functions-for-validation/structs.go:58-96 | a refused user prints the error and calls no method; otherwise as ShowClearShow |
| BankMenu.Classify | code/02-go-essentials/18-nested-if/bank.go:46-134 | choice 1 shows the balance; a deposit is accepted if and only if positive; a withdrawal is accepted if and only if positive and at most the balance, and otherwise refused as not positive or as an overdraft; any other choice exits |
| BankMenu.Input | code/02-go-essentials/21-switch/bank.go:33 | the k-th round reads the k-th command typed; past the end of input Scan leaves choice and amount at zero |
| BankMenu.WithdrawAll | code/02-go-essentials/18-nested-if/bank.go:109-120 | withdrawing the whole balance is accepted |
| BankMenu.ExhaustedInputExits | code/02-go-essentials/21-switch/bank.go:123-135 | a round past the end of input reads choice 0 and takes the exit branch |
| BankMenu.Respond | code/02-go-essentials/24-handling-errors/bank.go:151-206 | the balance changes by exactly the amount of an accepted operation and not otherwise; the new balance is written if and only if the version persists and the operation was accepted; one message is added; a non-negative balance stays non-negative |
| BankMenu.RespondMessage | code/02-go-essentials/21-switch/bank.go:39-144 | the message printed for each outcome: the balance, the new amount, the two rejection texts, or "Goodbye!" |
| BankMenu.RespondKeepsNonNegative | code/02-go-essentials/22-writing-to-files/bank.go:124-139 | one round keeps the balance and every written value non-negative |
| BankMenu.Strict | code/02-go-essentials/19-repeating-code-with-for/bank.go:5-152 | rounds of 19, each printing the welcome and the menu, stopping at the first rejection or after round 200: what was printed before is kept and nothing is written |
| BankMenu.StrictStep | code/02-go-essentials/19-repeating-code-with-for/bank.go:13-146 | before round 200, a round prints the welcome and the menu and responds; a rejection ends the run there, anything else goes on to the next round |
| BankMenu.StrictRoundBound | code/02-go-essentials/19-repeating-code-with-for/bank.go:13 | every round prints exactly three messages (welcome, menu, response), so the number of messages added is a multiple of three, and at most 3·(200 − i) messages follow round i |
| BankMenu.StrictNonNegative | code/02-go-essentials/19-repeating-code-with-for/bank.go:114-125 | 19 writes nothing, and a non-negative balance stays non-negative across rounds |
| BankMenu.ExitDoesNotStop | code/02-go-essentials/19-repeating-code-with-for/bank.go:132-139 | the exit choice prints "Goodbye!" and the loop goes on with the same balance |
| BankMenu.Mixed | code/02-go-essentials/20-infinite-loop-break-continue/bank.go:5-152 | rounds of 20: a bad deposit continues, a bad withdrawal returns, any other choice breaks and prints the thanks line; what was printed before is kept and nothing is written |
| BankMenu.MixedEnding | code/02-go-essentials/20-infinite-loop-break-continue/bank.go:96-148 | 20 ends either with "Goodbye!" and the thanks line, or with a withdrawal rejection and no thanks line |
| BankMenu.MixedNonNegative | code/02-go-essentials/20-infinite-loop-break-continue/bank.go:108-118 | 20 writes nothing and keeps a non-negative balance non-negative |
| BankMenu.Lenient | code/02-go-essentials/21-switch/bank.go:5-156 | rounds of 21 and later: rejections continue, any other choice prints goodbye and thanks and returns; what was printed and written before is kept, and writes are only appended |
| BankMenu.LenientNonNegative | code/03-working-with-packages/03-exporting-importing/bank.go:87-93 | the balance and every value written stay non-negative |
| BankMenu.LenientFileTracksBalance | code/02-go-essentials/22-writing-to-files/bank.go:92-139 | writes are only appended; once anything was written, the last value written is the final balance; in a persisting version with no write the balance is the starting one; a non-persisting version writes nothing |
| BankMenu.LenientEnding | code/03-working-with-packages/02-splitting-code-across-files/bank.go:138-141 | every run ends with "Goodbye!" and the thanks line, and keeps what was printed before |
| BankMenu.RejectedIsSkipped | code/02-go-essentials/21-switch/bank.go:64-114 | a rejected command leaves balance and file unchanged, and the loop continues with the next command |
| BankPrograms.ElseIf | code/02-go-essentials/15-working-with-else-if/bank.go:5-84 | the single round of 15: no file is written, the welcome and menu come first and the choice echo last, and only choice 2 changes the balance |
| BankPrograms.ElseIfBank | code/02-go-essentials/15-working-with-else-if/bank.go:5-84 | the program's balance and messages are those of the ElseIf specification |
| BankPrograms.ElseIfVersusNestedIf | code/02-go-essentials/15-working-with-else-if/bank.go:48-82 | agrees with the validating 18 on choice 1 and on positive deposits; applies a non-positive deposit that 18 refuses; leaves the balance alone on choice 3, where 18 may withdraw |
| BankPrograms.Round | code/02-go-essentials/19-repeating-code-with-for/bank.go:50-139 | the nested if-else chain prints and updates the balance as Respond does, and returns from main exactly on a rejected amount |
| BankPrograms.NestedIfBank | code/02-go-essentials/18-nested-if/bank.go:5-138 | exactly one validated round starting from 1000 |
| BankPrograms.NestedIfBankBalance | code/02-go-essentials/18-nested-if/bank.go:109-120 | the balance never ends negative, and withdrawing all 1000 leaves 0 |
| BankPrograms.RepeatingBank | code/02-go-essentials/19-repeating-code-with-for/bank.go:5-152 | the counted loop computes Strict from 1000: a rejection returns from main, and the balance carries across rounds |
| BankPrograms.BreakContinueBank | code/02-go-essentials/20-infinite-loop-break-continue/bank.go:5-152 | the loop with continue, return and break computes Mixed from 1000 |
| BankPrograms.MenuLoop | code/02-go-essentials/21-switch/bank.go:39-144 | the switch loop computes Lenient from the state reached before the loop |
| BankPrograms.SwitchBank | code/02-go-essentials/21-switch/bank.go:5-156 | 21 is Lenient from 1000 without writes, and its balance stays non-negative |
| BankPrograms.WritingBank | code/02-go-essentials/22-writing-to-files/bank.go:30-161 | 22 starts at 1000, writes after every accepted operation, keeps balance and writes non-negative, and the file ends holding the final balance |
| BankPrograms.LoadIgnoringErrors | code/02-go-essentials/23-reading-from-files/bank.go:17-46 | a missing file or unparsable text gives 0; parsable text gives its value |
| BankPrograms.LoadWithFallback | code/02-go-essentials/24-handling-errors/bank.go:16-63 | a missing file gives 1000 with "Failed to find balance file.", unparsable text 1000 with "Failed to parse stored balance value.", and otherwise the value with no error; no error if and only if the file parses |
| BankPrograms.ParseFloat | code/02-go-essentials/24-handling-errors/bank.go:44 | "" never parses; any other text gives what the parse returned |
| BankPrograms.LoadReport | code/02-go-essentials/24-handling-errors/bank.go:90-97 | no load error prints nothing; a load error prints the ERROR header, the message and the separator as one event |
| BankPrograms.LoadersAgreeOnGoodFiles | code/03-working-with-packages/02-splitting-code-across-files/bank.go:15-48 | the two loaders agree on a parsable file and differ only in the fallback (1000 versus 0) |
| BankPrograms.ReadingBank | code/02-go-essentials/23-reading-from-files/bank.go:67-196 | 23 runs the persisting loop from the loaded balance, or from 0 |
| BankPrograms.HandlingErrorsBank | code/02-go-essentials/24-handling-errors/bank.go:79-225 | a load error is printed before the welcome and is not fatal; the persisting loop runs from the returned balance |
| BankPrograms.FileopsBank | code/03-working-with-packages/03-exporting-importing/bank.go:14-113 | the error from fileops is printed and not fatal; the persisting loop runs from the returned balance |
| BankPrograms.ThirdPartyBank | code/03-working-with-packages/04-third-party-packages/bank.go:14-113 | as the fileops version, with the support phone number printed after the welcome |
| BankPrograms.LoadedRunInvariants | code/03-working-with-packages/02-splitting-code-across-files/bank.go:63-146 | from a non-negative loaded balance, the balance and every value written stay non-negative; the file ends holding the final balance, and with no write the balance is the loaded one |

## Left out

- Console I/O is modelled only as far as main depends on it. In the note and user programs prompts and messages are strings; in the bank programs messages are events. Formatting of floats by `fmt.Println` and `fmt.Sprint` is not modelled; the bank events carry the value.
- The bank programs' input prompts ("Your choice: ", "Your deposit: ", "Withdrawal amount: ") are not in the `Event` trace: each round's events are only the messages it prints.
- Each `getUserInput` call creates a new `bufio.Reader`, which may buffer more input than the line it returns. The model assumes interactive input, where each read sees exactly the next line.
- `fmt.Scan`/`fmt.Scanln` token splitting and type conversion are library behaviour. The model takes the values they stored.
- `encoding/json.Marshal` and the stored JSON layout (struct tags) are foreign: `Save` takes the marshalled bytes or the marshal error as a parameter.
- Notes.Commit: a failed `os.WriteFile` is taken to leave the directory unchanged, though the real call can leave a created or truncated file behind.
- `time.Now()` is a parameter (`Instant`), and the creation time is never shown or compared.
- Notes.ToLower: ASCII case mapping only; Unicode `strings.ToLower` mapping is not modelled.
- Bank amounts are exact reals. float64 rounding, NaN and infinities are not modelled, and neither are ParseFloat's range errors.
- BankPrograms.ParseFloat: the parse is a parameter. The only fact fixed is that "" does not parse, which the 23 loader relies on after a failed read. The `fmt.Sprint` and `ParseFloat` round trip is not modelled.
- Write errors from `os.WriteFile` in the bank programs are ignored by the source. Every write is therefore recorded as done.
- The `todo` package, `fileops`, `presentOptions` and `randomdata.PhoneNumber` are not part of this model. Their results are parameters, and the options menu is the single `Menu` event. The todo's own file writes are not part of the directory the model tracks.
- The `saver` interface is not modelled as dynamic dispatch: `SaveData` takes the error the saver's `Save` returned.
- Users.Admin: Go embeds `User` by value. The model holds the embedded user by reference, which is equivalent here because it is never shared.
- Files with no logic beyond arithmetic or printing are left out: the investment and profit calculators, the pointer demos, the early struct demos, the custom-type demos and 13-onwards-to-control-structures.
- Hypothetical variants that appear in the source's trailing explanatory text are not compiled code and are left out. These include a pointer-returning `New`, `Load`, and an alternative `Admin`.

# AVGTest dialogue runtime, modelled in Dafny

AVGTest is a Unity visual-novel prototype. Its dialogue script is a CSV sheet.
Every line after the header is one `DialogueData` row: an integer ID and nine
text columns (Command, CharacterSide, CharacterKey, LoadMode, HightLight, BG, CG,
Name, Dialogue).

This project models four parts of the runtime:

- **CSV row parsers.** There are two:
  - the dialogue manager's own parser splits on `'\n'` and skips blank lines;
  - the dialogue data service's parser splits on `'\r'` and `'\n'` and drops empty entries.

  Both skip the header, drop lines with fewer than ten fields or a non-integer ID, and trim every field. `int.TryParse` is modelled as an explicit 32-bit decimal parser.
- **The dialogue manager.** This is the row list and the cursor. `ShowDialogue`, `ExecuteCommand`, `HandleSetCharater`, `NextDialogue` and `Process` together turn the row at the cursor into:
  - `OnChangeNextDialogue` notifications;
  - calls on the dialogue view, such as portraits, highlighting, fades and backgrounds.

  Every such call is one `Effect`, appended to a trace in call order. A `SetCharacter` row whose side is `Left` or `Right` and whose load mode is `NoWait` advances the cursor and shows the next row by itself. The chain ends because the number of rows left ahead of the cursor decreases with each step.
- **The batch cache `GameDataManager`.** This is a map from an item type to the batch stored for it. It supports a guarded insert or replace, a loader whose call is guarded the same way, lookup, filter by ID, filter by predicate, and removal.
- **The tester panel `DialogueScriptTest`.** Its run button reads a `chapter[.branch]` command, and the left Ctrl key held together with = toggles the panel and the pause flag.

Files:

| file | module | contents |
|---|---|---|
| `optional.dfy` | `Optional` | `Option` |
| `text.dfy` | `Text` | `String.Trim`, `String.Split` with and without empty entries, LF/CRLF |
| `int32_text.dfy` | `Int32Text` | `int.TryParse`; a decimal spelling of integers, used only to state the parser's round trip |
| `dialogue_record.dfy` | `DialogueRecord` | the `DialogueData` record |
| `csv_rows.dfy` | `CsvRows` | the per-line rule shared by both parsers; the two parsers' results as functions |
| `dialogue_data_service.dfy` | `DialogueDataService` | the service's parsing loop |
| `dialogue_manager.dfy` | `DialogueManagerModel` | the show/command state machine as functions, and the `DialogueManager` class |
| `game_data_manager.dfy` | `GameDataCache` | the `GameDataManager` class |
| `dialogue_script_test.dfy` | `ScriptTester` | the tester's command parser, and the `DialogueScriptTest` class |

How the state machine is specified:

- `ShowFrom`, `ExecuteFrom`, `SetCharacterFrom` and `NextFrom` give, for a row list and a cursor, the effects of one call and the cursor it leaves behind.
- The class methods are proved to append exactly those effects to the trace and to leave exactly that cursor.
- `ShowClosedForm` flattens the recursion. A show runs through the auto-advancing rows in order, stops at the first row that waits, and then applies the chain's backgrounds in reverse row order.

Two facts about the code that a reader might not expect:

- The CG column is passed to `SetBG` (`ShowEndsWithOwnBackdrop`).
- The manager's blank-line check is redundant, because a blank line never has ten fields (`BlankLineSkipped`).

## Model

| member | source | states |
|---|---|---|
| Text.Trim | Assets/Script/DialogueSystem/DialogueManager.cs:92 | a trimmed field starts and ends with a non-whitespace character (or is empty) and is no longer than the field; its exact shape is `TrimCutsBlankEnds` |
| Text.TrimCutsBlankEnds | Assets/Script/DialogueSystem/DialogueManager.cs:92 | the trimmed field is a slice of the field, and everything cut before and after it is whitespace |
| Text.TrimEmptyIffBlank | Assets/Script/DialogueSystem/DialogueManager.cs:80 | trimming gives the empty string exactly when the line is null-or-whitespace |
| Text.TrimIdempotent | Assets/Script/GameData/DialogueDataService.cs:53-55 | trimming an already trimmed field changes nothing |
| Text.TrimKeepsChars | Assets/Script/DialogueSystem/DialogueManager.cs:92 | trimming adds no character that was not in the field |
| Text.Split | Assets/Script/DialogueSystem/DialogueManager.cs:82 | a split has one more part than there are separators, and no part contains a separator |
| Text.JoinSplit | Assets/Script/DialogueSystem/DialogueManager.cs:82 | joining the parts of a split with the separator gives back the original line |
| Text.SplitJoin | Assets/Script/DialogueSystem/DialogueManager.cs:82 | splitting fields joined by a separator they do not contain gives back the fields |
| Text.SplitAtSeparator | Assets/Script/DialogueTest/DialogueScriptTest.cs:73 | splitting `a + sep + b` gives the parts of `a` followed by the parts of `b` |
| Text.NonEmptyLines | Assets/Script/GameData/DialogueDataService.cs:47 | each line kept by the service's split is non-empty and contains neither '\r' nor '\n' |
| Text.RemoveEmpty | Assets/Script/GameData/DialogueDataService.cs:47 | dropping empty entries leaves no empty entry and no more entries than before |
| Text.RemoveEmptyKeeps | Assets/Script/GameData/DialogueDataService.cs:47 | removing empty entries keeps every non-empty one |
| Text.RemoveEmptySubset | Assets/Script/GameData/DialogueDataService.cs:47 | removing empty entries introduces no entry |
| Text.CrlfSplitAgrees | Assets/Script/GameData/DialogueDataService.cs:47 | after the first line, CRLF and LF text give the same non-empty lines |
| Text.CrlfSameLines | Assets/Script/GameData/DialogueDataService.cs:47 | CRLF and LF text give the same non-empty line list |
| Text.SplitWithoutCr | Assets/Script/GameData/DialogueDataService.cs:47 | without '\r' in the text, splitting on both line breaks is splitting on '\n' |
| Text.LeadingBreaksDropped | Assets/Script/GameData/DialogueDataService.cs:47 | line breaks before the text give no entry: the non-empty lines are those of the rest |
| Int32Text.ParseInt32 | Assets/Script/DialogueSystem/DialogueManager.cs:97 | a parsed ID lies in the 32-bit signed range |
| Int32Text.ParseSpelling | Assets/Script/DialogueSystem/DialogueManager.cs:97 | parsing the decimal spelling of an integer gives it back exactly when it fits 32 bits, and fails otherwise |
| Int32Text.ParseIntToString | Assets/Script/DialogueTest/DialogueScriptTest.cs:74 | every 32-bit integer written in decimal parses back to itself |
| Int32Text.ParseRejectsOverflow | Assets/Script/GameData/DialogueDataService.cs:55 | an integer outside the 32-bit range is rejected, not wrapped |
| Int32Text.ParseRejectsBareSign | Assets/Script/DialogueTest/DialogueScriptTest.cs:74-84 | an empty part, or a bare sign, is not a number |
| Int32Text.ParseIgnoresTrim | Assets/Script/DialogueSystem/DialogueManager.cs:90-97 | trimming the ID field before parsing does not change the parse |
| CsvRows.LineRow | Assets/Script/DialogueSystem/DialogueManager.cs:80-117 | the per-line rule shared by both parsers; an accepted row's ID is a 32-bit integer (its whole content is `LineRowAccepts`) |
| CsvRows.TrimAll | Assets/Script/DialogueSystem/DialogueManager.cs:90-93 | trimming every field keeps the field count and trims field i into position i |
| CsvRows.TrimFields | Assets/Script/DialogueSystem/DialogueManager.cs:90-93 | the in-place loop leaves the array holding each old field trimmed |
| CsvRows.ParseLine | Assets/Script/GameData/DialogueDataService.cs:51-69 | one line's body (split, count check, trim in place, TryParse, record) gives exactly the per-line rule's row |
| CsvRows.LineRowAccepts | Assets/Script/DialogueSystem/DialogueManager.cs:82-117 | a line gives a row iff it has at least ten comma-separated fields and its trimmed first field parses; the row is the ID and the trimmed fields 1..9 in column order |
| CsvRows.LineRowByFields | Assets/Script/DialogueSystem/DialogueManager.cs:90-115 | the row is built from the trimmed field array, not from the raw fields |
| CsvRows.LineRowFieldsClean | Assets/Script/DialogueSystem/DialogueManager.cs:103-115 | every text column of an emitted row is trimmed and has no comma |
| CsvRows.RowOfJoinedFields | Assets/Script/GameData/DialogueDataService.cs:57-69 | ten or more comma-free fields with an integer first field give the record of fields 0..9 trimmed; fields past 9 are ignored |
| CsvRows.ShortLineSkipped | Assets/Script/GameData/DialogueDataService.cs:52 | a line with fewer than ten fields gives no row |
| CsvRows.BlankLineSkipped | Assets/Script/DialogueSystem/DialogueManager.cs:80 | a blank line gives no row |
| CsvRows.Collect | Assets/Script/GameData/DialogueDataService.cs:49-70 | at most one row is produced per line |
| CsvRows.CollectAppend | Assets/Script/DialogueSystem/DialogueManager.cs:117 | one more line appends its row, if any, after the earlier rows |
| CsvRows.CollectAround | Assets/Script/DialogueSystem/DialogueManager.cs:78-118 | each line's row sits between the rows of the lines before it and those after it, so source order is kept |
| CsvRows.CollectConcat | Assets/Script/GameData/DialogueDataService.cs:49-70 | the rows of two blocks of lines are the rows of the first block, then those of the second |
| CsvRows.CollectRemoveEmpty | Assets/Script/GameData/DialogueDataService.cs:47 | dropping empty lines does not change the rows |
| CsvRows.ManagerRows | Assets/Script/DialogueSystem/DialogueManager.cs:72-119 | the manager's rows: at most one per '\n'-separated line after the first |
| CsvRows.ServiceRows | Assets/Script/GameData/DialogueDataService.cs:44-72 | the service's rows: none when there is at most one non-empty line, otherwise at most one per non-empty line after the first |
| CsvRows.ManagerHeaderIgnored | Assets/Script/DialogueSystem/DialogueManager.cs:78 | the first line never produces a row in the manager's parser |
| CsvRows.HeaderFirst | Assets/Script/GameData/DialogueDataService.cs:47 | a header line followed by LF is the first non-empty line, before those of the body |
| CsvRows.ServiceHeaderIgnored | Assets/Script/GameData/DialogueDataService.cs:47-49 | after any run of empty lines, the first non-empty line never produces a row in the service's parser: the rows are those of the body |
| CsvRows.ServiceCrlfSameRows | Assets/Script/GameData/DialogueDataService.cs:47 | the service gives the same rows for CRLF and LF text |
| CsvRows.ParsersAgreeWithoutCr | Assets/Script/GameData/DialogueDataService.cs:44-72 | without '\r' and with a non-empty header line, the two parsers give the same rows |
| DialogueDataService.ParseCsv | Assets/Script/GameData/DialogueDataService.cs:44-72 | returns the service's rows; with at most one non-empty line it returns none; otherwise at most one row per non-empty line after the header |
| DialogueDataService.RowsAfterHeader | Assets/Script/GameData/DialogueDataService.cs:49-70 | the loop from line 1 on gives exactly the rows of the lines after the header, in line order |
| DialogueDataService.AddRow | Assets/Script/GameData/DialogueDataService.cs:57-69 | the list grows by the line's row when the line gave one, and is unchanged otherwise |
| DialogueManagerModel.HighlightEffects | Assets/Script/DialogueSystem/DialogueManager.cs:207-226 | one or two view calls, each of them a highlight call |
| DialogueManagerModel.ProcessLights | Assets/Script/DialogueSystem/DialogueManager.cs:207-226 | "Left" lights exactly the left portrait, "Right" exactly the right, "None" neither, "All" or anything else both; each iff |
| DialogueManagerModel.ShowFrom | Assets/Script/DialogueSystem/DialogueManager.cs:121-141 | a show first notifies the row at the cursor, or `null` past the end; the cursor never moves back and never passes the row count |
| DialogueManagerModel.ExecuteFrom | Assets/Script/DialogueSystem/DialogueManager.cs:143-163 | a command never moves the cursor back and keeps it within the rows |
| DialogueManagerModel.SetCharacterFrom | Assets/Script/DialogueSystem/DialogueManager.cs:165-185 | a portrait is set iff the side is "Left" or "Right", and it is that side's portrait; the cursor moves iff, in addition, the load mode is "NoWait" |
| DialogueManagerModel.NextFrom | Assets/Script/DialogueSystem/DialogueManager.cs:187-191 | the next show starts one row further on, and the cursor ends at least there |
| DialogueManagerModel.FirstWaiting | Assets/Script/DialogueSystem/DialogueManager.cs:171-183 | the first row from the cursor on that does not auto-advance; every row before it does |
| DialogueManagerModel.ShowAutoStep | Assets/Script/DialogueSystem/DialogueManager.cs:165-191 | an auto-advancing row notifies, sets its portrait, runs the next row's whole show, and only then applies its own BG and CG |
| DialogueManagerModel.ShowWaitingStep | Assets/Script/DialogueSystem/DialogueManager.cs:121-141 | a row that waits gives its notification, its command's effects and its backdrop, and the cursor stays |
| DialogueManagerModel.ShowClosedForm | Assets/Script/DialogueSystem/DialogueManager.cs:121-191 | a show runs through the auto-advancing rows up to the first waiting row, stops there, and applies the chain's backdrops last row first |
| DialogueManagerModel.ShowStopsAtWaitingRow | Assets/Script/DialogueSystem/DialogueManager.cs:171-183 | the NoWait chain stops at the first row that waits, having passed only rows that auto-advance |
| DialogueManagerModel.ShowReachesEnd | Assets/Script/DialogueSystem/DialogueManager.cs:123-128 | a show notifies `null` and fades the black screen in iff its cursor ends at the row count |
| DialogueManagerModel.ShowPastEnd | Assets/Script/DialogueSystem/DialogueManager.cs:123-128 | with the cursor past the end, there is no command, BG or CG effect, and the cursor stays |
| DialogueManagerModel.ShowEndsWithOwnBackdrop | Assets/Script/DialogueSystem/DialogueManager.cs:130-140 | BG then CG of the captured row come last, after any auto-advance; CG goes to `SetBG` |
| DialogueManagerModel.SayNotifiesTwice | Assets/Script/DialogueSystem/DialogueManager.cs:151-154 | a "Say" row notifies itself twice, then highlights, then its backdrop |
| DialogueManagerModel.OtherCommands | Assets/Script/DialogueSystem/DialogueManager.cs:133-134 | an empty command gives no command effect, "CleanCharacter" fades the portraits out, and any other command only warns |
| DialogueManagerModel.ReadLine | Assets/Script/DialogueSystem/DialogueManager.cs:80-117 | one iteration of the manager's loop yields the per-line rule's row |
| DialogueManagerModel.DialogueManager.constructor | Assets/Script/DialogueSystem/DialogueManager.cs:15-17 | empty row list, cursor 0, empty trace |
| DialogueManagerModel.DialogueManager.ParseCSV | Assets/Script/DialogueSystem/DialogueManager.cs:72-119 | appends exactly the manager's rows for the CSV, in order; nothing else changes |
| DialogueManagerModel.DialogueManager.AddParsed | Assets/Script/DialogueSystem/DialogueManager.cs:117 | appends the accepted row, if any |
| DialogueManagerModel.DialogueManager.LoadDialogueData | Assets/Script/DialogueSystem/DialogueManager.cs:50-70 | with a saved copy and no forced update, the rows are the saved copy; otherwise the rows are the parsed download, which is then saved |
| DialogueManagerModel.DialogueManager.Start | Assets/Script/DialogueSystem/DialogueManager.cs:21-29 | fades the black screen out and the characters in, loads the rows, then shows from the cursor; a saved copy stays as it was, and without one the loaded rows are saved |
| DialogueManagerModel.DialogueManager.ShowDialogue | Assets/Script/DialogueSystem/DialogueManager.cs:121-141 | appends the effects of `ShowFrom` and moves the cursor where it says |
| DialogueManagerModel.DialogueManager.ExecuteCommand | Assets/Script/DialogueSystem/DialogueManager.cs:143-163 | appends the effects of `ExecuteFrom` and moves the cursor where it says |
| DialogueManagerModel.DialogueManager.HandleSetCharacter | Assets/Script/DialogueSystem/DialogueManager.cs:165-185 | appends the effects of `SetCharacterFrom` and moves the cursor where it says |
| DialogueManagerModel.DialogueManager.NextDialogue | Assets/Script/DialogueSystem/DialogueManager.cs:187-191 | increments the cursor, then shows: appends the effects of `NextFrom` |
| DialogueManagerModel.DialogueManager.OnClickForceRefresh | Assets/Script/DialogueSystem/DialogueManager.cs:193-199 | reloads from the download, saves it, resets the cursor to 0 and shows from there |
| DialogueManagerModel.DialogueManager.StartDialogue | Assets/Script/DialogueSystem/DialogueManager.cs:201-205 | resets the cursor to 0 and shows from there |
| DialogueManagerModel.DialogueManager.Process | Assets/Script/DialogueSystem/DialogueManager.cs:207-227 | appends the highlight calls for the row's highlight column; rows and cursor unchanged |
| GameDataCache.Filter | Assets/Script/DialogueSystem/GameDataManager.cs:37-39 | the result is no longer than the batch and holds exactly the items that satisfy the predicate |
| GameDataCache.FilterIsSubsequence | Assets/Script/DialogueSystem/GameDataManager.cs:44 | filtering keeps the stored order |
| GameDataCache.FilterMultiplicity | Assets/Script/DialogueSystem/GameDataManager.cs:44 | a matching item keeps every copy, a non-matching one none |
| GameDataCache.GameDataManager.constructor | Assets/Script/DialogueSystem/GameDataManager.cs:8 | the cache starts empty |
| GameDataCache.GameDataManager.AddBatch | Assets/Script/DialogueSystem/GameDataManager.cs:10-16 | with the type cached and no forced update, the cache is unchanged; otherwise only that type's entry becomes the given items |
| GameDataCache.GameDataManager.AddAsync | Assets/Script/DialogueSystem/GameDataManager.cs:18-25 | the handler is asked iff the type is not cached or an update is forced, and then its items replace that type's entry |
| GameDataCache.GameDataManager.GetAll | Assets/Script/DialogueSystem/GameDataManager.cs:27-33 | the stored batch for a cached type, and empty otherwise |
| GameDataCache.GameDataManager.GetById | Assets/Script/DialogueSystem/GameDataManager.cs:35-40 | exactly the stored items with that ID, as a subsequence of the batch, with every copy kept |
| GameDataCache.GameDataManager.Query | Assets/Script/DialogueSystem/GameDataManager.cs:42-45 | exactly the stored items satisfying the predicate, as a subsequence of the batch, with every copy kept |
| GameDataCache.GameDataManager.Clear | Assets/Script/DialogueSystem/GameDataManager.cs:47-50 | only that type's entry is removed, and `GetAll` for it is then empty |
| ScriptTester.ParseCommand | Assets/Script/DialogueTest/DialogueScriptTest.cs:70-84 | no command iff the input is blank; a rejected chapter or branch part does not parse; a played chapter and branch are 32-bit |
| ScriptTester.ReadParts | Assets/Script/DialogueTest/DialogueScriptTest.cs:73-84 | a chapter part that does not parse is rejected, and only then; a parsed chapter without a branch plays branch 0; a branch part that does not parse is rejected, and only then; two parsed parts are played |
| ScriptTester.CommandRule | Assets/Script/DialogueTest/DialogueScriptTest.cs:70-84 | for any non-blank input, the same rule read off the parts of its trimmed text: rejection of the chapter or branch iff that part does not parse, otherwise the parsed chapter and branch (0 when absent) |
| ScriptTester.Answer | Assets/Script/DialogueTest/DialogueScriptTest.cs:74-88 | at most one action follows the cancel: none iff the input is blank, and a branch is played iff the command is good, with its chapter and branch |
| ScriptTester.Toggle | Assets/Script/DialogueTest/DialogueScriptTest.cs:57-63 | visibility flips, and the pause flag equals the new visibility |
| ScriptTester.ToggleTwice | Assets/Script/DialogueTest/DialogueScriptTest.cs:57-63 | two toggles restore visibility, and restore the whole panel when the pause flag matched it |
| ScriptTester.PlaysChapter | Assets/Script/DialogueTest/DialogueScriptTest.cs:79 | a bare chapter number plays branch 0 |
| ScriptTester.PlaysChapterBranch | Assets/Script/DialogueTest/DialogueScriptTest.cs:73-88 | "c.b" plays chapter c, branch b |
| ScriptTester.ExtraPartsIgnored | Assets/Script/DialogueTest/DialogueScriptTest.cs:73-88 | parts after the second are ignored: "c.b.anything" plays c, b |
| ScriptTester.EmptyChapterRejected | Assets/Script/DialogueTest/DialogueScriptTest.cs:74-78 | a command starting with '.' is rejected for its empty chapter part |
| ScriptTester.EmptyBranchRejected | Assets/Script/DialogueTest/DialogueScriptTest.cs:80-84 | "c." is rejected for its empty branch part |
| ScriptTester.DialogueScriptTest.constructor | Assets/Script/DialogueTest/DialogueScriptTest.cs:24-47 | the panel starts as the scene shows it, with no actions |
| ScriptTester.DialogueScriptTest.Start | Assets/Script/DialogueTest/DialogueScriptTest.cs:49-53 | hides the panel; the pause flag is untouched |
| ScriptTester.DialogueScriptTest.Update | Assets/Script/DialogueTest/DialogueScriptTest.cs:55-64 | the left Ctrl key held with = pressed toggles the panel; any other frame changes nothing |
| ScriptTester.DialogueScriptTest.RunCommand | Assets/Script/DialogueTest/DialogueScriptTest.cs:66-106 | always cancels first, then records the warning or the branch to play that `ParseCommand` and `Answer` determine; the panel is unchanged |

## Left out

- The CSV download (`DownloadCsvHttpClient`) and the service's `GetDialogueListAsync` are network and file I/O. The downloaded text is a parameter of `Start`, `LoadDialogueData` and `OnClickForceRefresh`.
- The JSON cache file is modelled as `savedJson`, an optional row list. The JSON round trip through `JsonHelper` and Unity `JsonUtility` is assumed exact. A failed download or file access is not modelled.
- `FindFirstObjectByType`, the serialized fields, `Debug.Log`/`LogWarning` and the K key in `DialogueManager.Update` are left out. The K key only calls `OnClickForceRefresh`, which is modelled. An unknown command's warning is kept as an `UnknownCommand` effect.
- Whitespace is a fixed set: space, tab, LF, vertical tab, form feed and CR. Unicode whitespace and culture-specific parsing rules are left out.
- Awaits, fire-and-forget `_ = ShowDialogue()`, `async void` and the race between portrait loading and the next row are left out. Each awaited call is one atomic effect, and a nested show runs to completion before the outer row's BG and CG.
- `OnChangeNextDialogue` is always recorded as `Notify`. A missing subscriber is not modelled.
- DialogueView, DialogueUIController, JsonHelper, DialogueDataHandler and IGameDataHandler are not part of this model. Their calls appear only as effect labels.
- The tester's reflection lookup in `Awake` and the branch engine are not modelled. `CancelCurrent` and `PlayBranch` are recorded as actions, and `pauseForInput` is a field of the tester model, because none of them is defined in the manager's code.
- Trim: the contract states only the shape of a trimmed string and its length bound. That the result is the field with the whitespace at both ends cut away is stated by the lemma `TrimCutsBlankEnds`, kept out of the contract so that proofs using `Trim` stay small.
- `GameDataCache.GameDataManager.AddAsync`: the handler's load is not performed. The items it would deliver are the `loaded` parameter.
- `IGameData` is a record with an ID and an opaque payload. The generic type parameter `T` is a string tag, and the `Cast<T>` conversions are identities.

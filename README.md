# browser-terminal: the interpreter and its stores

A model of the core of browser-terminal, a web page that imitates a Unix terminal.
The page shows a list of prompt lines. Pressing enter on the open prompt sends
its line to a small command interpreter. The interpreter knows twelve verbs:

- `ls`, `cd`, `pwd`, `cat`, `touch`, `vim` and `rm` work on a virtual
  filesystem kept in memory;
- `help`, `history` and `clear` work on the session;
- `top` and `clearLocalStorage` need the browser (see "Left out").

The model has seven modules.

- **JsText** (`js_text.dfy`). The JavaScript string operations the source
  relies on: `trim`, `indexOf`, `includes`, `split`, `join`, and lower-casing.
- **JsMap** (`js_map.dfy`). A JavaScript `Map<string, V>`, and the property
  list of a plain object, as an ordered association list:
  - `get` finds a key;
  - `set` replaces the value of a present key where it stands, or appends a new key.
- **Files** (`files.dfy`). The filesystem store.
  - The tree is a `datatype Entry = File(text) | Dir(children)`.
  - Path resolution stops early: it returns the longest prefix of the path that
    leads through directories.
  - Updates are `set` on the resolved directory.
  - The tree converts to a plain object and back (`mapToObject` and `objectToMap`).
    The object is modelled with the order in which `for...in` visits its
    properties.
  - `class FilesStore` holds the tree as a field and has the store's methods.
- **Prompts** (`prompt_store.dfy`). The session store.
  - The prompt record of `src/types/index.d.ts:3-9` is the datatype
    `PromptInstance`.
  - `class CommandPromptStore` holds the prompt list, the current directory,
    the terminal mode, the history, the vim editor's fields and an id counter.
  - Functions on a `Session` value specify each method of the store.
- **Commands** (`commands.dfy`). The interpreter.
  - Tokenising and the file-name test.
  - The recursive search: it looks at the current level and then descends only
    into the first sub-directory.
  - One step function per verb on `(Session, Listing, PromptInstance)`. Each
    handler method on the two stores is proved equal to its step function.
- **Terminal** (`terminal.dfy`). `handleCommandInputEnter`. It lives in its own
  module because the session store and the interpreter import each other.
- **Wrappers** (`wrappers.dfy`). `Option`, the model's `undefined`.

The model reproduces these behaviours of the source on purpose:

- `cd` checks its argument against the root's names only, never against the
  current directory.
- `cat` on a missing file replies with the empty string. The "No such file"
  branch can never be taken, because every search result is truthy.
- The search never looks past the first sub-directory of a level.
- `rm` looks for `-r` anywhere in the argument.
- A line of only whitespace records `""` in the history.

## Model

| member | source | states |
|---|---|---|
| JsText.Trim | src/utils/commands.ts:339-342 | the result neither starts nor ends with whitespace; it is empty exactly when the input is all whitespace |
| JsText.TrimIsSlice | src/utils/commands.ts:339-342 | the result is the slice of the input after its leading whitespace, with only whitespace after it |
| JsText.TrimStart | src/utils/commands.ts:339-342 | the result is a suffix of the input; everything dropped is whitespace; the result starts with a non-space |
| JsText.TrimEnd | src/utils/commands.ts:339-342 | the result is a prefix of the input; everything dropped is whitespace; the result ends with a non-space |
| JsText.TrimClean | src/utils/commands.ts:339-342 | text with no whitespace at either end is left unchanged by trimming |
| JsText.TrimIdempotent | src/utils/commands.ts:339-342 | trimming twice gives the same result as trimming once |
| JsText.IndexOfFrom | src/utils/commands.ts:301 | the result is the first occurrence at or after the start position; none is returned only when there is no occurrence |
| JsText.IncludesChar | src/utils/commands.ts:90-102 | `includes` of a one-character string means the character occurs |
| JsText.JoinSplit | src/utils/commands.ts:80-82 | joining the pieces of a split with the same separator gives the original text back |
| JsText.SplitJoin | src/utils/commands.ts:104-118 | splitting a join gives the pieces back, when no piece contains the one-character separator |
| JsText.SplitSingle | src/utils/commands.ts:76-78 | a split gives one piece exactly when the separator does not occur |
| JsText.SplitHeadTail | src/utils/commands.ts:67-82 | the first piece is the text before the first separator; the other pieces are the split of the text after it |
| JsText.SplitPiecesFree | src/utils/commands.ts:303 | no piece of a split contains the separator |
| JsText.JoinSnoc | src/utils/commands.ts:257-261 | joining one more piece adds the separator and that piece at the end |
| JsText.JoinHasPart | src/utils/commands.ts:175-181 | every piece of a join occurs in the joined text |
| JsText.AfterLastSuffix | src/utils/commands.ts:84-102 | the text after the last `c` is a suffix without `c`, preceded by `c` unless it is the whole text |
| JsText.AfterLastUnique | src/utils/commands.ts:84-102 | any suffix without `c` that is the whole text, or is preceded by `c`, is the text after the last `c` |
| JsText.SplitLastChar | src/utils/commands.ts:84-102 | the last piece of a split on one character is the text after the last occurrence |
| JsText.ToLower | src/utils/commands.ts:99-101 | the same length, with each character lower-cased |
| JsMap.Keys | src/utils/commands.ts:192 | `Array.from(map.keys())` has one key per entry, in insertion order |
| JsMap.KeyIndex | src/stores/filesStore.ts:66-78 | the position of the first entry with the key; none only when no entry has it |
| JsMap.HasIffKey | src/stores/filesStore.ts:66-78 | `has(k)` holds exactly when `k` is among the keys |
| JsMap.Get | src/stores/filesStore.ts:80-89 | the result is present exactly when the key is, and then it is that key's value |
| JsMap.Set | src/stores/filesStore.ts:95-101 | afterwards the key maps to the new value and every other key maps to its old value; a present key keeps its position and a new key goes last; distinct keys stay distinct |
| JsMap.SetNew | src/stores/filesStore.ts:95-101 | `set` on an absent key appends the pair |
| JsMap.SetAllFresh | src/stores/filesStore.ts:19-41 | setting distinct new keys one by one appends the entries in order |
| JsMap.SetAllDistinct | src/stores/filesStore.ts:19-41 | building a map from entries with distinct keys gives those entries in their order |
| Files.Resolve | src/stores/filesStore.ts:66-78 | the followed names are a prefix of the path and they lead through directories |
| Files.ResolveStops | src/stores/filesStore.ts:66-78 | resolution stops only at the end of the path, or before a name that is missing or a file |
| Files.ResolveLongest | src/stores/filesStore.ts:66-78 | every prefix of the path that leads through directories is covered by the resolved prefix |
| Files.FilesStore.FindMapAtPath | src/stores/filesStore.ts:66-78 | the loop returns the resolved prefix and the directory it leads to; with no path that is the root; it never fails |
| Files.FilesStore.GetFile | src/stores/filesStore.ts:80-89 | the text of the file with that name in the resolved directory; empty if the name is absent or is a directory |
| Files.FilesStore.SaveFile | src/stores/filesStore.ts:91-93 | the tree becomes the old tree with the file set in the resolved directory |
| Files.FilesStore.AddFile | src/stores/filesStore.ts:95-101 | the same tree effect as `saveFile` |
| Files.FilesStore.AddFolder | src/stores/filesStore.ts:103-109 | the name is bound to a new empty directory in the resolved directory |
| Files.FilesStore.Update | src/stores/filesStore.ts:43-46 | the whole tree is replaced by the conversion of the given object |
| Files.FilesStore.constructor | src/stores/filesStore.ts:10-17 | the store starts with the seeded tree, or with the conversion of the saved object when storage holds one |
| Files.InitialTreeRoundTrips | src/stores/filesStore.ts:10-17 | the seeded tree holds `bio.md`, `projects` and `secret_keys.pem` in that order, and it survives the round trip through a plain object |
| Files.SetAtTarget | src/stores/filesStore.ts:95-109 | after an update, the directory at the path is the old one with the key set |
| Files.SetAtFrame | src/stores/filesStore.ts:95-109 | no entry changes except the one written and the directories leading to it |
| Files.ResolveKeepsUnderNonDir | src/stores/filesStore.ts:95-101 | after a file is written, the path it was written under resolves as before |
| Files.AddFileThenGetFile | src/stores/filesStore.ts:80-101 | `getFile` after `addFile` returns the content written; the directory keeps its key order, and a new name is appended last |
| Files.AddFileKeepsOthers | src/stores/filesStore.ts:95-101 | `addFile` leaves every entry off the written path as it was |
| Files.AddFolderEffect | src/stores/filesStore.ts:103-109 | `addFolder` binds the name to an empty directory, replacing any file or folder there, and changes nothing off that path |
| Files.OwnEntries | src/stores/filesStore.ts:19-29 | the assignments that create a property are exactly those whose name is not `__proto__` |
| Files.OwnEntriesAll | src/stores/filesStore.ts:19-29 | without a `__proto__` name, every assignment creates its property |
| Files.ProtoFileDropped | src/stores/filesStore.ts:19-41 | a file named `__proto__` gives no property, so the round trip loses it |
| Files.ProtoFolderDropped | src/stores/filesStore.ts:19-29 | a folder named `__proto__` becomes the prototype, not a property |
| Files.MapToObjectShape | src/stores/filesStore.ts:19-29 | with distinct keys and none `__proto__`, `mapToObject` converts entry by entry and keeps the order |
| Files.ForInOrder | src/stores/filesStore.ts:31-41 | `for...in` visits only properties of the object |
| Files.ForInOrderPerm | src/stores/filesStore.ts:31-41 | `for...in` visits every property exactly once |
| Files.ForInOrderIndexFirst | src/stores/filesStore.ts:31-41 | `for...in` visits the array-index properties first, in ascending order of index, then the others in insertion order |
| Files.PropsKinds | src/stores/filesStore.ts:31-41 | the index properties are exactly those with an array-index name, the named properties exactly the others |
| Files.SortByIndexPerm | src/stores/filesStore.ts:31-41 | ordering the array-index properties is a permutation |
| Files.InsertByIndexSorted | src/stores/filesStore.ts:31-41 | inserting a property into a list sorted by index keeps it sorted |
| Files.SortByIndexSorted | src/stores/filesStore.ts:31-41 | ordering the array-index properties sorts them by ascending index |
| Files.PropsPartition | src/stores/filesStore.ts:31-41 | the index properties and the named properties together are exactly the object's properties |
| Files.ObjectToMapShape | src/stores/filesStore.ts:31-41 | with distinct keys, `objectToMap` converts property by property in `for...in` order |
| Files.NoIndexPropsInOrder | src/stores/filesStore.ts:31-41 | without array-index names, `for...in` visits the properties in insertion order |
| Files.RoundTrip | src/stores/filesStore.ts:19-41 | converting a tree to a plain object and back gives the same tree, when no directory has repeated names, array-index names or `__proto__` |
| Files.ObjectOfTidy | src/stores/filesStore.ts:19-41 | the round trip keeps the order and converts each entry on its own |
| Files.IndexNamesMoveFirst | src/stores/filesStore.ts:31-41 | a tree with the names `b` and then `1` comes back with `1` first, so the round trip needs its precondition |
| Prompts.FindById | src/stores/globalStore.ts:60-62 | the position of the first prompt with the id; none only when no prompt has it |
| Prompts.CreateNew | src/stores/globalStore.ts:26-28 | appends a blank, open prompt in the current directory with the next id; nothing else changes; ids stay valid |
| Prompts.CreateMessage | src/stores/globalStore.ts:30-36 | appends a disabled prompt that shows the message under the command; nothing else changes; ids stay valid |
| Prompts.ResetSession | src/stores/globalStore.ts:38-43 | exactly three prompts: `cat bio.md` with the welcome text, the mode line, one open prompt; nothing else changes |
| Prompts.ResetSessionValid | src/stores/globalStore.ts:38-43 | after `reset` only the last prompt is open and the ids are valid |
| Prompts.CreateNewAndDisable | src/stores/globalStore.ts:45-53 | appends one open prompt and disables the prompt at the given position if the list holds one; no other prompt changes |
| Prompts.DisableLastKeepsOneOpen | src/stores/globalStore.ts:45-53 | if only the last prompt was open and it is the one disabled, only the new last prompt is open |
| Prompts.NewIdIsFresh | src/stores/globalStore.ts:16-24 | a new prompt's id differs from every id in the list, and a lookup finds the new prompt |
| Prompts.SetCommand | src/stores/globalStore.ts:78-84 | only the command of the first prompt with the id changes; the list keeps its length |
| Prompts.CommandPromptStore.constructor | src/stores/globalStore.ts:9-15 | the store starts in `~`, in client mode, with an empty history, after one `reset` |
| Prompts.CommandPromptStore.EmptyPromptInstance | src/stores/globalStore.ts:16-24 | returns a blank, open prompt in the current directory and takes a new id |
| Prompts.CommandPromptStore.CreateNewPromptInstance | src/stores/globalStore.ts:26-28 | the store's new state is `CreateNew` of the old one |
| Prompts.CommandPromptStore.CreateMessagePrompt | src/stores/globalStore.ts:30-36 | the store's new state is `CreateMessage` of the old one |
| Prompts.CommandPromptStore.Reset | src/stores/globalStore.ts:38-43 | the store's new state is `ResetSession` of the old one |
| Prompts.CommandPromptStore.CreateNewPromptInstanceAndDisablePreviousInstance | src/stores/globalStore.ts:45-53 | the store's new state is `CreateNewAndDisable` of the old one |
| Prompts.CommandPromptStore.HandleCommandInputEnterServer | src/stores/globalStore.ts:73-86 | the callback runs exactly when the id is found; the only change is the command of that prompt; nothing is appended or disabled |
| Commands.VerbOf | src/utils/commands.ts:9-22 | the verb whose name equals the word exactly, case-sensitively; none when no verb has that name |
| Commands.VerbOfName | src/utils/commands.ts:9-22 | each verb's name reads back as that verb |
| Commands.AllVerbsComplete | src/utils/commands.ts:24-37 | the verb list holds all twelve verbs, each once |
| Commands.IsFileIff | src/utils/commands.ts:90-102 | a name is a file exactly when it has a dot and the lower-cased text after the last dot is `txt`, `md`, `pem` or `js` |
| Commands.IsFileByExtension | src/utils/commands.ts:90-102 | `stem.ext` is a file exactly when the lower-cased `ext` is a valid extension; a trailing dot never is |
| Commands.IsFileSamples | src/utils/commands.ts:90-102 | `A.MD` is a file name; `a.` and `notes` are not |
| Commands.NoDotNotFile | src/utils/commands.ts:90-102 | a name without a dot is never a file |
| Commands.SingleCharNotFile | src/utils/commands.ts:90-102 | no one-character name is a file |
| Commands.CommandPrefixIs | src/utils/commands.ts:67-74 | the verb is the one named by the trimmed text before the first space; none exactly when no verb has that name |
| Commands.CommandSuffixIs | src/utils/commands.ts:76-78 | the argument is missing exactly when there is no space; otherwise it is the trimmed text between the first and the second space |
| Commands.DoubleSpaceEmptySuffix | src/utils/commands.ts:76-78 | a double space after the verb gives an empty argument |
| Commands.CommandSuffixAllIs | src/utils/commands.ts:80-82 | everything after the first space, trimmed |
| Commands.CommandSuffixAllClean | src/utils/commands.ts:80-82 | when the text after the first space has no whitespace at either end, that text is the result |
| Commands.CurrentDirNameIs | src/utils/commands.ts:84-88 | the current directory's name is the text after its last `/`, and contains no `/` |
| Commands.FirstDir | src/utils/commands.ts:121-144 | the position of the first entry that is a directory; none only when no entry is |
| Commands.FindRec | src/utils/commands.ts:121-144 | a text hit is never empty, so every result is truthy |
| Commands.DescentChain | src/utils/commands.ts:121-144 | starts at the directory, and each next directory is the first sub-directory of the one before it, until a directory has none |
| Commands.SearchChainNoMatch | src/utils/commands.ts:121-144 | the chain search finds nothing exactly when no directory on it has a truthy entry of that name |
| Commands.SearchChainFirst | src/utils/commands.ts:121-144 | the chain search returns the hit nearest the start |
| Commands.FindRecSearchesDescent | src/utils/commands.ts:121-144 | `getFileRecursively` searches exactly the chain of first sub-directories, top first |
| Commands.SecondFolderNotSearched | src/utils/commands.ts:121-144 | a file in the second sub-directory is never found |
| Commands.FindRecTruthy | src/utils/commands.ts:209-221 | every search result is truthy, so the `No such file` reply is unreachable |
| Commands.FileNames | src/utils/commands.ts:146-169 | a word is kept exactly when it is in the list and is a file name |
| Commands.FileNamesSnoc | src/utils/commands.ts:146-169 | the kept names are in list order: a name added at the end is kept at the end, if it is a file name |
| Commands.TextListsNothing | src/utils/commands.ts:146-169 | a file's text, split into characters, lists nothing |
| Commands.EntryWordsAreFiles | src/utils/commands.ts:146-169 | every word listed for a directory is a file name |
| Commands.EntryWordsAreFileKeys | src/utils/commands.ts:146-169 | when no file's text is a file name, a directory lists exactly its file-named keys, in insertion order; sub-directories are not listed |
| Commands.Spans | src/utils/commands.ts:104-118 | one span per word, in order |
| Commands.FormatLsReply | src/utils/commands.ts:104-118 | the loop wraps each space-separated word in the folder or file span and joins with spaces |
| Commands.FormatLsOfNames | src/utils/commands.ts:104-118 | a space-joined list of names without spaces is formatted name by name |
| Commands.LsLists | src/utils/commands.ts:183-195 | by the last path segment: a root directory lists its file-named entries; a non-empty root file lists nothing; an empty root file lists what the search below the first root sub-directory finds; an empty segment or a missing name lists every root name in insertion order |
| Commands.HelpNamesEveryVerb | src/utils/commands.ts:175-181 | the `help` reply names every verb |
| Commands.CatReplies | src/utils/commands.ts:209-221 | no argument gives the usage reply; a non-file name gives `Not a file!`; a file name shows the result of the first-sub-directory search |
| Commands.CatNothingFound | src/utils/commands.ts:209-221 | a file not found on the search chain is shown as the empty string |
| Commands.CatShowsRootFile | src/utils/commands.ts:209-221 | a non-empty file at the root is shown as its text |
| Commands.RmFolderNameIs | src/utils/commands.ts:303 | the folder name is the trimmed text between the first `-r` and the next one |
| Commands.RmDeletesOnlyOnDeletePaths | src/utils/commands.ts:295-325 | with no argument, or a name whose kind does not match the `-r` option, the reply does not depend on the deletions |
| Commands.RmHyphenatedFile | src/utils/commands.ts:301-305 | `rm` on a file name that contains `-r` followed by a file name is refused as a file given with `-r` |
| Commands.RmReplies | src/utils/commands.ts:295-327 | no argument gives the usage reply; with `-r` anywhere, the folder name is the trimmed text between the first and second `-r`, a file-looking one is refused, and otherwise the folder deletion decides the reply; without `-r`, a name that is not a file is refused, and otherwise the file deletion decides the reply |
| Commands.RmFolderNameAfterDash | src/utils/commands.ts:301-303 | with one `-r` in the argument, the folder name is the trimmed text after it |
| Commands.HelpStep | src/utils/commands.ts:175-181 | only the prompt's reply changes |
| Commands.LsStep | src/utils/commands.ts:183-195 | only the prompt's reply changes |
| Commands.CdStep | src/utils/commands.ts:197-207 | only the current directory and the prompt's reply can change |
| Commands.CatStep | src/utils/commands.ts:209-221 | only the prompt's reply changes |
| Commands.TopStep | src/utils/commands.ts:223-251 | only the prompt's reply changes |
| Commands.PwdStep | src/utils/commands.ts:253-255 | only the prompt's reply changes |
| Commands.HistoryStep | src/utils/commands.ts:257-261 | only the prompt's reply changes |
| Commands.TouchStep | src/utils/commands.ts:263-275 | without a name: the usage reply and the same tree; with one: no reply, and the name is bound to an empty file if it looks like a file, else to an empty directory, where the current root entry resolves; the session never changes |
| Commands.VimStep | src/utils/commands.ts:277-289 | without a name: the usage reply and no other change; with one: the editor becomes visible on that name with what `getFile` finds for it in the current root entry; the tree and all other fields are unchanged |
| Commands.RemoveStep | src/utils/commands.ts:295-327 | only the prompt's reply changes; the tree is untouched |
| Commands.DefaultStep | src/utils/commands.ts:329-337 | only the prompt's reply changes |
| Commands.DispatchFrame | src/utils/commands.ts:352-392 | no verb changes the history, the mode or the counter; only `clear` empties the prompt list; only `cd` moves the directory; only `vim` opens the editor |
| Commands.DispatchKeepsPrompt | src/utils/commands.ts:352-392 | only `touch` changes the tree, and every verb changes at most the prompt's reply |
| Commands.DispatchCases | src/utils/commands.ts:352-392 | the effect each case of the switch is allowed |
| Commands.CommandStepDispatches | src/utils/commands.ts:344-350 | a non-empty command is trimmed and recorded, and the switch runs on the verb named by the trimmed text before the command's first space |
| Commands.CommandStepSession | src/utils/commands.ts:344-348 | an empty command records nothing; any other records its trimmed text exactly once, whatever the verb; the counter and the prompt's id never change |
| Commands.WhitespaceOnlyRecordsEmpty | src/utils/commands.ts:344-348 | a whitespace-only line records `""` and changes nothing else |
| Commands.UnknownVerbReply | src/utils/commands.ts:329-337 | a line whose first word is no verb is recorded and gets the bad-command reply; nothing else changes |
| Commands.CdChecksRootOnly | src/utils/commands.ts:197-207 | no argument goes to `~`; a root name is appended to the path; any other name is refused and the directory is kept |
| Commands.HistoryShowsThisCommandLast | src/utils/commands.ts:257-261 | `history` shows every earlier command and then this one, separated by `<br>` |
| Commands.TouchThenVim | src/utils/commands.ts:263-289 | `touch` then `vim` of the same file name opens it in the editor, empty |
| Commands.TouchMakesFolder | src/utils/commands.ts:263-275 | `touch` on a name that is not a file name makes an empty directory where the current path resolves |
| Commands.HandleClearCommand | src/utils/commands.ts:171-173 | the prompt list is emptied, and nothing else changes |
| Commands.HandleHelpCommand | src/utils/commands.ts:175-181 | the result is `HelpStep` |
| Commands.HandleLsCommand | src/utils/commands.ts:183-195 | the result is `LsStep` |
| Commands.HandleCdCommand | src/utils/commands.ts:197-207 | the new state is `CdStep` of the old one |
| Commands.HandleCatCommand | src/utils/commands.ts:209-221 | the result is `CatStep` |
| Commands.HandleTopCommand | src/utils/commands.ts:223-251 | the result is `TopStep` |
| Commands.HandlePwdCommand | src/utils/commands.ts:253-255 | the result is `PwdStep` |
| Commands.HandleHistoryCommand | src/utils/commands.ts:257-261 | the result is `HistoryStep` |
| Commands.HandleTouchCommand | src/utils/commands.ts:263-275 | the new tree is `TouchStep` of the old one |
| Commands.HandleVimCommand | src/utils/commands.ts:277-289 | the new state is `VimStep` of the old one |
| Commands.HandleRemoveCommand | src/utils/commands.ts:295-327 | the result is `RemoveStep` |
| Commands.HandleDefaultCheck | src/utils/commands.ts:329-337 | the result is `DefaultStep` |
| Commands.HandleCommand | src/utils/commands.ts:344-393 | the new state of both stores is `CommandStep` of the old one |
| Commands.HandleSwitch | src/utils/commands.ts:352-392 | the new state is the `Dispatch` of the verb |
| Terminal.SubmitStep | src/stores/globalStore.ts:65-67 | interpreting the submitted prompt keeps the list or empties it, keeps the counter, and keeps the prompt's id with its command trimmed |
| Terminal.SubmitUnknownId | src/stores/globalStore.ts:60-63 | an id that no prompt carries changes nothing |
| Terminal.FinishKept | src/stores/globalStore.ts:67-70 | when the list was kept, the handled prompt is disabled in place, the others are unchanged, and one open prompt follows |
| Terminal.FinishCleared | src/stores/globalStore.ts:67-70 | when the list was emptied, only the new open prompt is left |
| Terminal.FinishKeepsIds | src/stores/globalStore.ts:67-70 | writing back a prompt with its own id and opening a new one keeps the ids valid |
| Terminal.SameIdsValid | src/stores/globalStore.ts:67-70 | sessions with the same ids position by position and the same counter are valid together |
| Terminal.StepKeepsIds | src/stores/globalStore.ts:65-67 | interpreting a command keeps the ids valid |
| Terminal.SubmitAppendsPrompt | src/stores/globalStore.ts:56-71 | without `clear`: one new open prompt with the next id in the directory the command left; the submitted prompt is disabled and holds the trimmed command; all other prompts are unchanged |
| Terminal.SubmitClearLeavesOnePrompt | src/stores/globalStore.ts:56-71 | after `clear` the list is exactly one new open prompt |
| Terminal.SubmitKeepsOneOpen | src/stores/globalStore.ts:45-53 | submitting the last prompt, the only open one, leaves exactly the new last prompt open |
| Terminal.OneOpenAfter | src/stores/globalStore.ts:45-53 | disabling the open last prompt and appending an open one leaves exactly one open prompt, the last |
| Terminal.SubmitKeepsIds | src/stores/globalStore.ts:56-71 | ids stay distinct, increasing and below the counter across any submission |
| Terminal.HandleCommandInputEnter | src/stores/globalStore.ts:56-71 | the new state of both stores is `Submit` of the old one |
| Terminal.WriteBackAndOpen | src/stores/globalStore.ts:67-70 | the handled prompt is written back where it was, and a new prompt is opened with the old one disabled |

## Left out

- `handleTopCommand`: its reply comes from the browser's memory API and from float formatting. The model takes that reply from the host (`Host.topReply`).
- `handleClearLocalStorageCommand`: it only clears browser storage, so in the model it has no effect.
- `deleteFile` and `deleteFolder`: `rm` calls them, but the files store does not define them (src/stores/filesStore.ts:121-127). The model treats them as host functions that return a boolean. It does not invent their behaviour, and `rm` never changes the modelled tree. As the source stands, these two calls (src/utils/commands.ts:307 and 317) call `undefined` and throw a `TypeError`. `handleCommand` is then aborted before any reply is set, and src/stores/globalStore.ts:70 is skipped, so no new prompt appears and the submitted one stays open. The model assumes a store that defines them; `Terminal.SubmitAppendsPrompt` depends on that assumption for `rm` on those two paths.
- Storage and reactivity in the files store (`localStorage`, `JSON.stringify`/`JSON.parse`, `saveToLocalStorage`, the Vue `watch`). The constructor takes the saved object, if any, as a parameter. `AddFile` and `AddFolder` do not model the explicit save.
- `marked.parse`: a Markdown library. The model uses the identity (`Rendered`).
- uuid generation: replaced by the counter `nextId`. Ids are naturals.
- `console.log` in `rm`: output only.
- src/utils/commandsToServer.ts is not part of this model. It is network I/O. `HandleCommandInputEnterServer` only reports whether the callback would be invoked.
- The six colours of src/stores/customizationStore.ts. Two constants stand in for the ones `ls` uses.
- The static message texts. They are parameters (`StaticTexts`, the store's `welcome`).
- JsText.ToLower: lower-cases ASCII letters only, because every name it is compared with is ASCII.
- Files.ObjectToMap: a plain object holds only strings and nested objects in the model. Arrays, numbers and `null`, which `JSON.parse` could produce, are not modelled.
- Files.RoundTrip: requires distinct names, none an array index and none `__proto__`, in every directory. `for...in` visits array-index names first, so other trees come back reordered (`Files.IndexNamesMoveFirst`). Assigning `__proto__` runs the prototype setter, so that entry is lost (`Files.ProtoFileDropped`, `Files.ProtoFolderDropped`).
- Prototypes: a plain object of the model holds only its own properties, which is what `JSON.stringify` saves. A folder named `__proto__` becomes the prototype of the object built in memory, and `for...in` on that object would also visit the prototype's properties. The model does not represent this. The source converts back only from the result of `JSON.parse` (src/stores/filesStore.ts:52-60), where `__proto__` is an ordinary name.
- Prompt aliasing: the interpreter changes the very record that sits in the prompt list. The model passes the prompt as a value and writes the result back at its position when the list still has one there (`Terminal.WriteBackAndOpen`).
- Commands.GetCurrentDirName: the source always calls it without an argument, so it reads `CURRENT_DIR`. The model passes the current directory explicitly. The fallback for an empty argument is not modelled; the current directory is never empty.

# blackchat, modelled in Dafny

blackchat is a terminal chat client for the blackbox.ai service. The user types lines into a
read-eval-print loop (`main.mjs`). A line is either a command or a message:

- Commands switch between normal, image and code generation, pick the code target
  (NestJS, Cobol or Svelte), clear the history, export it to a file, and so on.
- A message goes to a `Chat` (`Chat.mjs`):
  - A message containing `[web]` is first rewritten to a search query. The search results are
    wrapped into a prompt around it.
  - The request for the current mode is sent through `BlackBox.chat` (`blackbox.mjs`). Its
    reply has the service's `$@$…$@$` metadata spans removed.
  - The exchange is logged in the `History` (`History.mjs`).
  - In code mode, the reply's fenced blocks are parsed as a JSON list of files. A file whose
    name has no directory part is written into `<cwd>/tmp/`. The whole reply is then saved there
    as `SOURCE.md`.
- A line naming a document is first offered to `DocChat` (`DocChat.mjs`).
- `extract.mjs` is a separate script. It runs the same fenced-block scanner on a file and parses
  the first block.

The model follows the code as written, including where it does not do what its design text says:

- A file name containing `..` is not checked. The model writes it wherever `dirname` puts it.
- The blocks are joined with commas (`String(array)`) before `JSON.parse`. The model parses that
  text, not each block separately.
- The target path is `dirname(rootDir + "/" + name) + name`, with no separator. A nested name
  like `src/a.ts` therefore targets `…/tmp//srcsrc/a.ts` (`BlackBox.NestedTargetExample`). The
  loop creates `…/tmp/src` only, so `writeFileSync` throws on the missing `srcsrc` directory
  unless that directory is already there (`BlackBox.NestedNameThrows`).
- `History.lastMessage` reads the unbound name `Role`, so it throws on any non-empty history.
- `DocChat.add` reaches loaders, a splitter and a vector store that are never bound, so it
  always throws, and `hasDocs` never becomes true.
- In `makeRequest`, the error handler reads a `message` that is not in scope. Every failed
  request therefore ends with `doChat` returning the (engineered) message.
- In normal and image mode, `makeRequest` returns the value of `Logger.mdLog`, which is
  `undefined`.
- The search results are built into the prompt that is logged with the reply, but the request
  itself carries only the engineered message (`Chat.OutgoingIgnoresPrompt`).

The outside world is passed in as parameters:

- the HTTP exchange with the service (`send`);
- the image download (`fetch`);
- the web search (`search`);
- `JSON.parse` and `JSON.stringify` (`parse`, `stringify`);
- URL validity, `untildify` and `existsSync` for documents;
- the downloads folder and the current time for `export`.

The file system is a `Disk` object:

- files, directories and a log of successful writes;
- a fixed set of paths where the operating system refuses to create or write.

Modules, one per concern:

- `Values`: `undefined`, thrown errors, `Result`.
- `Text`: the JavaScript string operations used: `trim`, `split`, `join`, `includes`,
  `replace`, `toLowerCase`, and the lazy `.*?` of the regular expressions.
- `Fences`: the declarative meaning of the block scanner.
- `Paths`: POSIX `path.dirname`, and how the operating system reads a path: repeated slashes
  collapse, and a trailing slash names a directory, so a path ending in one is never written
  as a file.
- `FileSystem`: `existsSync`, `mkdirSync` and `writeFileSync`.
- `BlackBox`: `blackbox.mjs`.
- `Extract`: `extract.mjs`.
- `History`: `History.mjs`.
- `DocChat`: `DocChat.mjs`.
- `Config`: the prompt texts of `main.mjs`.
- `Chat`: `Chat.mjs`.
- `Repl`: the line handler and completer of `main.mjs`.

## Model

| member | source | states |
|---|---|---|
| BlackBox.AgentFor | blackbox.mjs:14-34 | only image mode names an agent (the image generator); the code agent is overwritten with the empty one |
| BlackBox.RequestBody | blackbox.mjs:35-56 | the request carries the text as the one user message, a 4096-token budget and the mode's agent |
| BlackBox.SpanEnd | blackbox.mjs:68 | a span starts only at `$@$`, is at least six characters long (both markers), and never crosses a line terminator |
| BlackBox.StripMarkers | blackbox.mjs:68 | removing the spans never lengthens the reply |
| BlackBox.StripSubsequence | blackbox.mjs:68 | the cleaned reply is a subsequence of the raw one: removal only deletes characters |
| BlackBox.NoMarkerWithoutDollar | blackbox.mjs:68 | no span starts inside a stretch without `$` |
| BlackBox.StripNoDollar | blackbox.mjs:68 | a reply without `$` is left unchanged by the metadata removal |
| BlackBox.StripPlain | blackbox.mjs:68 | text in which no span starts, an unclosed `$@$` included, passes through unchanged in front of whatever follows it |
| BlackBox.NoMarkerNoSpan | blackbox.mjs:68 | no span starts where no `$@$` occurs |
| BlackBox.LazyUntilMisses | blackbox.mjs:68 | the lazy `.*?` finds no closing marker when its line ends first |
| BlackBox.UnclosedNoSpan | blackbox.mjs:68 | a `$@$` with no other marker before the end of its line opens no span |
| BlackBox.StripUnclosed | blackbox.mjs:68 | a `$@$` with no closing marker before the end of its line is kept, with the rest of its line |
| BlackBox.StripUnclosedExample | blackbox.mjs:68 | `$@$x` is returned unchanged |
| BlackBox.StripTwoLinesExample | blackbox.mjs:68 | in `$@$a`, line feed, `$@$b$@$`, the first marker stays and only the second line's span is removed |
| BlackBox.StripSecondLine | blackbox.mjs:68 | a line feed followed by a closed span keeps only the line feed |
| BlackBox.StripSpan | blackbox.mjs:68 | a `$@$…$@$` span on one line is removed together with both markers |
| BlackBox.StripExample | blackbox.mjs:68 | `abc$@$meta$@$def` becomes `abcdef` |
| BlackBox.StripLeadingSpanExample | blackbox.mjs:68 | a leading span is removed entirely |
| BlackBox.StripKeepsLineTerminators | blackbox.mjs:68 | the lazy `.*?` never crosses a line, so removal keeps every line terminator |
| BlackBox.LazyUntilReaches | blackbox.mjs:68 | a lazy scan stops at the first closing marker it can reach on the same line |
| BlackBox.Chat | blackbox.mjs:13-69 | the call fails exactly when the HTTP exchange fails; the returned reply is the raw reply with its spans removed (`StripMarkers`), so it is no longer than the raw one and has as many line feeds |
| BlackBox.ImageLinkAt | blackbox.mjs:71-74 | an image link read by `/!\[.*?\]\((.*?)\)/` holds no `)` and no line terminator |
| BlackBox.ImageLink | blackbox.mjs:71-74 | the first image link, found at some position; none exactly when no position starts an image |
| BlackBox.ImageLinkShift | blackbox.mjs:71-74 | a position where no image starts does not change which image comes first |
| BlackBox.ImageExample | blackbox.mjs:71-74 | `![cat](c.png)` yields the link `c.png` |
| BlackBox.GenImage | blackbox.mjs:70-82 | image generation throws exactly when the reply has an image link and its download fails |
| BlackBox.ExtractCodeBlocks | blackbox.mjs:119-139 | the one-pass scanner returns exactly the declarative blocks of the reply |
| Fences.PositionsExact | blackbox.mjs:126-128 | a position is recorded exactly when its line was flagged as a fence |
| Fences.FenceIndicesExact | blackbox.mjs:127 | a line is a fence line exactly when it is among the recorded fences |
| Fences.BlockCount | blackbox.mjs:126-138 | there are half as many blocks as fence lines, rounded down; an unclosed block is dropped |
| Fences.NoFenceNoBlocks | blackbox.mjs:126-138 | a reply without a fence line has no block |
| Fences.BlockInteriorHasNoFence | blackbox.mjs:126-138 | the lines of a block are never fence lines |
| Fences.BlockAt | blackbox.mjs:126-138 | the j-th block is the lines between the (2j)-th and (2j+1)-th fences, each followed by a line feed, trimmed |
| Fences.ScanOpen | blackbox.mjs:127-128 | a fence line outside a block opens one |
| Fences.ScanClose | blackbox.mjs:127-132 | a fence line inside a block closes it and records it trimmed |
| Fences.ScanInside | blackbox.mjs:133-135 | a line inside a block is appended to it with a line feed |
| Fences.ScannedAll | blackbox.mjs:138 | after the last line the closed blocks are all the blocks |
| Fences.OneJsonBlock | blackbox.mjs:119-139 | ```` ```json\n[1]\n``` ```` has the single block `[1]` |
| Paths.DirName | blackbox.mjs:149 | `dirname` gives `.` or a prefix of the path |
| Paths.DirNameOfChild | blackbox.mjs:149 | the directory of `dir/name` is `dir` for a plain name |
| Paths.Collapse | blackbox.mjs:151-155 | collapsing repeated slashes never lengthens a path and never empties one |
| Paths.CollapseNoDouble | blackbox.mjs:151-155 | a collapsed path has no two slashes in a row |
| Paths.CollapseClean | blackbox.mjs:151-155 | a path without two slashes in a row is already collapsed, so collapsing twice is collapsing once |
| Paths.CollapseAppend | blackbox.mjs:151-155 | two pieces that do not meet in two slashes collapse piece by piece |
| Paths.Canon | blackbox.mjs:151-155 | the name the system reads is no longer than the path, non-empty for a non-empty path, and ends in a slash only when it is the root |
| Paths.CanonJoin | blackbox.mjs:151-155 | a path ending in a piece without outer slashes reads as both parts collapsed |
| Paths.CanonDir | blackbox.mjs:145 | a trailing slash after a clean piece is dropped |
| Paths.JoinClean | blackbox.mjs:149 | one or two slashes between clean pieces read as one |
| Paths.Ancestors | blackbox.mjs:153 | the directories a recursive `mkdirSync` makes include the path itself and are all prefixes of it |
| BlackBox.TmpDirShape | blackbox.mjs:145 | `<outDir>/tmp/` names the directory `tmp` inside `outDir` |
| BlackBox.CanonUnderRoot | blackbox.mjs:145-158 | a clean relative path after `rootDir` names that path inside `<outDir>/tmp` |
| BlackBox.CanonUnderRootSlash | blackbox.mjs:149 | the extra slash of `rootDir + "/"` names the same file |
| BlackBox.PlainTarget | blackbox.mjs:149-155 | a plain name is written directly into `<outDir>/tmp/` |
| BlackBox.NestedTargetExample | blackbox.mjs:149-155 | `src/a.ts` is written to `<outDir>/tmp//srcsrc/a.ts` |
| BlackBox.NestedDir | blackbox.mjs:149 | for a name `d/f` the directory checked and made is `<outDir>/tmp/d` |
| BlackBox.NestedFileDir | blackbox.mjs:149-155 | for a name `d/f` the file is written into `<outDir>/tmp/dd` |
| BlackBox.NestedNameThrows | blackbox.mjs:149-155 | an entry `d/f` throws and writes nothing unless `<outDir>/tmp/dd` already exists |
| BlackBox.SlashNameThrows | blackbox.mjs:149-155 | an entry whose name ends in a slash throws and writes nothing, because its target ends in that slash |
| BlackBox.SlashNameExample | blackbox.mjs:149-155 | the name `a/` under `/o/tmp/` throws, with `/o/tmp` present, and nothing is written |
| BlackBox.WriteRecord | blackbox.mjs:148-155 | a turn after a throw changes nothing; a turn that completes had string code; directories and writes only grow, by at most one write |
| BlackBox.WriteRecordEffect | blackbox.mjs:148-155 | one entry completes exactly when its code is a string, its directory exists or can be made, and its target as built does not end in a slash and names a path that is not refused, not a directory and has its parent; it then writes its code there and nothing else; otherwise it writes nothing; a `null` entry throws before any directory is made; only the entry's directory and its ancestors are created |
| BlackBox.WriteRecordWrites | blackbox.mjs:155 | a turn that completes adds exactly the write of its code to its target; one that throws writes nothing |
| BlackBox.WriteRecordDone | blackbox.mjs:149-155 | after a turn that completes, its directory and its target exist, and no file has disappeared |
| BlackBox.WriteEntry | blackbox.mjs:148-155 | one turn of `existsSync`, `mkdirSync` and `writeFileSync` on the disk leaves it as `WriteRecord` says, and reports whether the turn completed |
| BlackBox.WriteRecords | blackbox.mjs:147-156 | a loop that completes started from a good state; directories and writes only grow |
| BlackBox.WriteAll | blackbox.mjs:147-156 | the loop leaves the disk as `WriteRecords` says and stops at the first throw |
| BlackBox.AbortedStays | blackbox.mjs:142-163 | once an entry has thrown, the remaining entries change nothing |
| BlackBox.WritesFromEntries | blackbox.mjs:147-156 | the write log only grows, and each new write puts an entry's code at that entry's target |
| BlackBox.CompletedRunWritesEach | blackbox.mjs:147-156 | a run that completes writes every entry once, in order |
| BlackBox.PlainNamesRun | blackbox.mjs:147-156 | entries with plain names all complete and make no directory but `<outDir>/tmp` and its ancestors |
| BlackBox.PlainNamesComplete | blackbox.mjs:147-156 | entries with plain names and string code whose targets are neither refused nor directories are all written, in order, into `<outDir>/tmp`, provided it exists or can be made |
| BlackBox.DisjointKept | blackbox.mjs:149-155 | the loop never makes a path both a file and a directory |
| BlackBox.FilesFollowWrites | blackbox.mjs:155 | the files after the loop are the old files with the loop's writes applied in order |
| BlackBox.CompletedRunFacts | blackbox.mjs:147-156 | after a loop that completes, every entry's directory and target exist |
| BlackBox.ReplayKeeps | blackbox.mjs:147-156 | running entries that are all done again completes and keeps the same directories and file names |
| BlackBox.NoFenceWritesNothing | blackbox.mjs:143-144 | a reply without blocks is parsed from the empty text, throws, and writes nothing |
| BlackBox.SourcePathShape | blackbox.mjs:157-158 | `SOURCE.md` is saved directly in `<outDir>/tmp` |
| BlackBox.WriteSource | blackbox.mjs:157-158 | `SOURCE.md` is written exactly when the loop completed and its path is writable, and then holds the reply; no directory is made |
| BlackBox.SourceNeedsTmp | blackbox.mjs:145-158 | an empty list of files makes no directory, so without `<outDir>/tmp` saving the reply throws and nothing is written |
| BlackBox.SourceWrittenLast | blackbox.mjs:157-158 | a completed run ends by writing the reply as `SOURCE.md` |
| BlackBox.Materialize | blackbox.mjs:141-164 | blocks that do not parse throw before anything is written; a turn that completes started from a good state; directories and writes only grow |
| BlackBox.MaterializeTwice | blackbox.mjs:141-164 | extracting the same reply a second time completes and leaves the files and directories as the first time did |
| BlackBox.ExtractFilesFromMarkdown | blackbox.mjs:141-164 | the disk ends as `Materialize` says and the result is always the empty list |
| FileSystem.Disk.MakeDirs | blackbox.mjs:153 | a recursive `mkdirSync` succeeds exactly when the path is not refused and none of its ancestors is a file, and then adds the path and all its ancestors; files and writes are unchanged |
| FileSystem.Disk.WriteFile | blackbox.mjs:155 | `writeFileSync` succeeds exactly when the path does not end in a slash and names a path that is not refused, is not a directory and has its parent directory; it then logs the write and updates the file; directories are unchanged |
| FileSystem.LastWriteWins | blackbox.mjs:155-158 | a written file holds what the last write to it put there; others keep their contents |
| FileSystem.RewriteIdempotent | blackbox.mjs:155-158 | repeating the same writes changes nothing |
| FileSystem.LastWriteTo | blackbox.mjs:155-158 | every written path has a last write |
| Extract.ParseFirstBlock | extract.mjs:30 | no block fails (`JSON.parse(undefined)`); otherwise it succeeds exactly when the first block parses |
| Extract.ExtractScript | extract.mjs:7-30 | the script parses the first of the scanner's blocks |
| Extract.ScriptExample | extract.mjs:30 | a file whose only block is `[1]` parses to the value of `[1]` |
| Extract.NoFenceFails | extract.mjs:30 | a file without fence lines always fails |
| History.ViewOf | History.mjs:27 | a message shows `role: null` and its content; a bare string shows neither |
| History.Views | History.mjs:27 | `get` has one view per entry, in order |
| History.Seeded | History.mjs:22-25 | a cleared history holds one message per system prompt, in order |
| History.TotalTokensDefined | History.mjs:20 | the token total is a number exactly when every entry has a count, and then it is their sum |
| History.SeededTotalIsNaN | History.mjs:20-25 | a seeded history never has a numeric total |
| History.History.constructor | History.mjs:2-5 | a new history is seeded with the system prompts |
| History.History.Add | History.mjs:7-18 | `add` appends the entry |
| History.History.Clear | History.mjs:22-25 | `clear` leaves exactly the seeded entries |
| History.History.Get | History.mjs:27 | `get` has one view per entry, each showing that entry's role and content |
| History.History.Total | History.mjs:20 | `totalTokens` is a number exactly when every entry has a count, and then it is their sum |
| History.History.LastMessage | History.mjs:29 | `lastMessage` gives `undefined` on an empty history and throws `ReferenceError` otherwise |
| DocChat.ToText | DocChat.mjs:18-33 | with `checkOnly` it answers whether the path is a URL or an existing file with a loader; without it, it always throws |
| DocChat.IsSupported | DocChat.mjs:5-7 | a document is supported exactly when it is a URL or an existing `.html`, `.pdf`, `.docx`, `.text` or `.md` file |
| DocChat.MissingFileError | DocChat.mjs:21-24 | a missing file is reported by its untildified name |
| DocChat.DocChat.constructor | DocChat.mjs:35-37 | a new document store has no documents |
| DocChat.DocChat.Clear | DocChat.mjs:54-57 | `clear` forgets the documents |
| DocChat.DocChat.Add | DocChat.mjs:39-52 | `add` always throws, with the error that `toText` raises for the file |
| DocChat.DocChat.Query | DocChat.mjs:59 | `query` always throws |
| Config.PreFactoHasQuery | main.mjs:56-63 | the web prompt quotes the query right after its opening words |
| Config.PreFactoHasResult | main.mjs:56-63 | the web prompt contains the search results after the question |
| Chat.LangPrompt | Chat.mjs:13-17 | a code target has instructions exactly when it is `nestjs`, `cobol` or `svelte` |
| Chat.Augmented | Chat.mjs:27-62 | the prompt is `undefined` exactly when the web search fails, or when documents are loaded and there is no force phrase; with neither it is the message |
| Chat.Bullets | Chat.mjs:47-50 | one bullet per search result, in order |
| Chat.WebBeforeDocs | Chat.mjs:29-56 | a web request is served the same way with or without documents |
| Chat.PlainPassesThrough | Chat.mjs:53-58 | without a force phrase the prompt is the message, or `undefined` when documents are loaded |
| Chat.PromptListsBullet | Chat.mjs:47-52 | every result's bullet appears in the web prompt |
| Chat.AugmentedMentionsResults | Chat.mjs:29-52 | a web prompt contains the query and every result's bullet |
| Chat.LeadingPhraseQuery | Chat.mjs:31 | a message starting with `[web]` asks about the rest of it, trimmed |
| Chat.LeadingPhraseSpace | Chat.mjs:31 | `[web] <question>` asks about the question |
| Chat.WebQueryExample | Chat.mjs:31 | `[web] France` asks about `France` |
| Chat.OutgoingIgnoresPrompt | Chat.mjs:69-84 | the request is the engineered message, or in code mode ends with `;` and the message |
| Chat.FailedRequestEchoes | Chat.mjs:92-95 | a failed request makes the turn answer with the engineered message |
| Chat.OnlyCodeReturnsReply | Chat.mjs:67-91 | only code mode returns the reply; the other modes return `undefined` |
| Chat.Reply | Chat.mjs:63-96 | only code mode with a successful exchange returns the reply; every error is the `ReferenceError` of the unbound `message`, and an error happens exactly in the three modes when the exchange fails or, in image mode, when the image download fails |
| Chat.Logged | Chat.mjs:66-85 | the prompt is always logged first; the exchange is logged exactly when the mode is one of the three and the exchange succeeded, and it is the engineered prompt, a line feed and the reply |
| Chat.Chat.constructor | Chat.mjs:19-26 | a chat keeps its parameters and the shared history and documents |
| Chat.Chat.PromptEngineer | Chat.mjs:27-62 | the message becomes its engineered form and the prompt is the augmented one |
| Chat.Chat.MakeRequest | Chat.mjs:63-96 | the result is `Reply`; the history gains the prompt entry and, when the service answered, the exchange |
| Chat.Chat.DoChat | Chat.mjs:97-110 | the answer, the history and, in code mode, the files written are what the engineered message and the reply determine; otherwise the disk is untouched |
| Repl.ParseCommand | main.mjs:159-234 | an empty key is a blank line; a key that names no command is a message; `lang` is parsed exactly for its three keys |
| Repl.NextMode | main.mjs:175-198 | only `lang`, `img`, `code` and `debug` change the mode; debug flips exactly on `debug`; the target changes only on `lang`, which also switches to code mode; `img` and `code` toggle their type |
| Repl.SetLangTarget | main.mjs:175-178 | `lang` sets the second word of the key, which is always a known code target |
| Repl.KeyIgnoresSpace | main.mjs:159 | white space around a line does not change the command |
| Repl.ModeStaysKnown | main.mjs:154-198 | every line keeps the mode one of the three types with a known target |
| Repl.ToggleTwice | main.mjs:184-198 | outside code mode `img` twice restores the mode, and from code mode it ends in normal mode; likewise `code` outside image mode; `debug` twice restores the mode |
| Repl.HelpLines | main.mjs:108 | one line per piece between line feeds; each line is its piece, without the carriage return that stood just before a line feed |
| Repl.LongWords | main.mjs:111-112 | no more words are kept than given, each longer than three characters |
| Repl.SystemCommands | main.mjs:107-112 | every completion candidate is longer than three characters |
| Repl.LongWordsExact | main.mjs:111-112 | the kept words are exactly the trimmed words longer than three characters |
| Repl.StarredWordsExact | main.mjs:109-110 | the candidates come exactly from the lines that start with `*` |
| Repl.SystemCommandsShape | main.mjs:107-112 | every command candidate is a trimmed word of four or more characters without space or colon |
| Repl.SystemCommandsComplete | main.mjs:107-112 | every long word before the colon of a starred help line is a candidate |
| Repl.Matching | main.mjs:136 | the filter keeps exactly the commands that start with the key |
| Repl.FileHits | main.mjs:125-135 | every path completion starts with the line's text up to a slash |
| Repl.Complete | main.mjs:123-138 | path completions win when there are any; otherwise only commands are offered; nothing is offered exactly when there are no path completions and no commands |
| Repl.CompleteCommands | main.mjs:136-137 | without path completions the matching commands are offered, or all commands when none match |
| Repl.Session.constructor | main.mjs:114-156 | a session starts in normal mode for NestJS, with a seeded history and no documents |
| Repl.PromptDisk | Chat.mjs:101-104 | a message changes the disk only in code mode, and then only adds directories and writes |
| Repl.Session.HandleLine | main.mjs:157-259 | the mode follows `NextMode`; `q` closes; `say` and `copy` throw; `clear` reseeds the history and forgets the documents; `export` writes the views where the path is writable; a message is logged or stalls on a document, and in code mode writes what `Materialize` gives; only a message makes directories, only `export` or a message changes files, only `clear` changes the documents; every other command ends with the prompt shown again |
| Repl.Session.Dispatch | main.mjs:159-258 | the same effects of each parsed command once the mode is set, and the prompt shown again after every command but `q`, `say`, `copy`, `export` and a message |
| Repl.Session.ExportHistory | main.mjs:211-216 | `export` writes the stringified views to the time-stamped file exactly when that path is writable, and otherwise throws and changes nothing; no directory is made |
| Repl.Session.RunPrompt | main.mjs:234-257 | a document line stalls; any other message is logged as one chat turn; the disk ends as `PromptDisk` says and the documents are unchanged |
| Text.Trim | blackbox.mjs:127 | the trimmed text is no longer and neither starts nor ends with white space |
| Text.TrimSlice | blackbox.mjs:127 | trimming keeps one slice of the text and removes only white space before and after it |
| Text.TrimBothEnds | blackbox.mjs:127 | trimming is trimming the start, then the end |
| Text.Split | blackbox.mjs:121 | there is at least one piece and no piece holds the separator |
| Text.ToLower | main.mjs:159 | lower-casing keeps the length and maps each character |
| Text.LazyUntil | blackbox.mjs:68 | the lazy scan stops at an occurrence of the marker with no earlier one and no line terminator before it |
| Text.JoinSplit | blackbox.mjs:121 | joining the split pieces with the separator gives the text back |
| Text.TrimIdempotent | blackbox.mjs:130 | trimming twice is trimming once |
| Text.LastIndexOf | main.mjs:126 | the last occurrence of a character, with none after it; none exactly when it is absent |

## Left out

- HTTP, the web search, the image download and `JSON.parse`/`JSON.stringify` are parameters. Their errors are the parameters' `None` or `false`.
- `BlackBox.showImage` (image decoding, resizing, terminal output) is not modelled; it catches all its own errors.
- `Logger.mdLog` rendering is not modelled; only its `undefined` result matters to the callers.
- Console output, the spinner, debug logging, `say` and the clipboard are not modelled. `say`/`copy` never reach them, because `lastMessage` throws first.
- The readline I/O and the creation of the downloads folder at start-up are not modelled; lines are handed to `Repl.Session.HandleLine` one at a time.
- `History.show` only prints, so it is not modelled.
- `postFacto`, `chatWithDoc` and `webBrowsing.needed` are never reached and are not modelled.
- `Date.now()` and the downloads folder are inputs of `Repl.ExportPath`.
- `new URL(...)`, `untildify`, `existsSync` and `readdirSync` are parameters of `DocChat.Env` and `Repl.CompleterEnv`.
- Text.ToLower: lower-cases ASCII letters only, because Unicode case mapping is not modelled.
- Strings are sequences of code points; JavaScript's UTF-16 lengths are not modelled.
- Operating-system failures other than a file in the way of a directory, a directory in the way of a file, or a missing parent directory are the fixed `denied` set.
- Paths: `.` and `..` components are not resolved, and symbolic links are not modelled; a path is read after collapsing repeated slashes, and a trailing slash is dropped for `existsSync` and `mkdirSync` while `writeFileSync` fails on it.
- Parsed JSON entries with a non-string `name` or `code` are abstracted to `FileRecord` fields of `None`, and a missing name reads as `undefined`. JavaScript would turn a numeric name into its digits; the model does not. A `null` entry is `FileRecord.Null` and throws at `file.name` before any directory is made.
- `PROMPTS` lookups of inherited property names (`constructor`, `toString`) are not modelled; such names are unreachable from the line handler.
- A generation type outside 0–2 cannot be set from the line handler. `Chat.Reply` still models it: nothing is sent and `undefined` is returned.
- Search results of other kinds, with missing fields, are modelled as `None` fields that print as `undefined`.

/** The interactive loop: each input line is either a command that changes
    the session's mode or state, or a message for the chat. */
module Repl {
  import opened Values
  import opened Text
  import opened FileSystem
  import opened Paths
  import Config
  import BlackBox
  import History
  import DocChat
  import Chat

  /** The commands the line handler recognises; anything else is a message. */
  datatype Command =
    | Blank | Quit | Help | GetLang | SetLang(lang: string) | ToggleImage | ToggleCode | ToggleDebug
    | ClearAll | ShowHistory | Export | Speak | Copy | Prompt

  /** The key the handler switches on: `line.toLowerCase().trim()`. */
  function Key(line: string): string
  {
    Trim(ToLower(line))
  }

  /** The keys of the `lang` command. */
  predicate LangCommandKey(key: string)
  {
    key == "lang svelte" || key == "lang nestjs" || key == "lang cobol"
  }

  /** Every key that names a command. */
  predicate CommandKey(key: string)
  {
    || key == "q" || key == "quit" || key == "exit" || key == "?" || key == "help" || key == "getlang"
    || LangCommandKey(key) || key == "img" || key == "code" || key == "debug" || key == "clr" || key == "clear"
    || key == "h" || key == "history" || key == "export" || key == "say" || key == "speak" || key == "cp" || key == "copy"
  }

  /** The command a line is. */
  function ParseCommand(line: string): (c: Command)
    ensures c == Blank <==> Key(line) == ""
    ensures c == Prompt <==> Key(line) != "" && !CommandKey(Key(line))
    ensures c.SetLang? <==> LangCommandKey(Key(line))
  {
    var key := Key(line);
    if key == "" then Blank
    else if key == "q" || key == "quit" || key == "exit" then Quit
    else if key == "?" || key == "help" then Help
    else if key == "getlang" then GetLang
    else if key == "lang svelte" || key == "lang nestjs" || key == "lang cobol" then SetLang(key[5..])
    else if key == "img" then ToggleImage
    else if key == "code" then ToggleCode
    else if key == "debug" then ToggleDebug
    else if key == "clr" || key == "clear" then ClearAll
    else if key == "h" || key == "history" then ShowHistory
    else if key == "export" then Export
    else if key == "say" || key == "speak" then Speak
    else if key == "cp" || key == "copy" then Copy
    else Prompt
  }

  /** The targets of code generation. */
  predicate KnownLang(lang: string)
  {
    lang == "nestjs" || lang == "svelte" || lang == "cobol"
  }

  /** The target of a `lang` command is the second word of the key
      (`split(" ")[1]`), and it is one the code prompts know. */
  lemma {:induction false} SetLangTarget(line: string)
    requires ParseCommand(line).SetLang?
    ensures var key := Key(line);
      |Split(key, ' ')| > 1 && ParseCommand(line).lang == Split(key, ' ')[1]
    ensures KnownLang(ParseCommand(line).lang)
    ensures Chat.LangPrompt(ParseCommand(line).lang).Some?
  {
    var key := Key(line);
    assert key == "lang svelte" || key == "lang nestjs" || key == "lang cobol";
    assert ParseCommand(line).lang == key[5..];
    LangKey(key);
  }

  /** The three `lang` keys split into `lang` and a known target. */
  lemma LangKey(key: string)
    requires key == "lang svelte" || key == "lang nestjs" || key == "lang cobol"
    ensures |Split(key, ' ')| > 1 && key[5..] == Split(key, ' ')[1]
    ensures KnownLang(key[5..])
  {
    if key == "lang svelte" {
      assert key == "lang" + [' '] + "svelte";
      LangKeyWord(key, "svelte");
    } else if key == "lang nestjs" {
      assert key == "lang" + [' '] + "nestjs";
      LangKeyWord(key, "nestjs");
    } else {
      assert key == "lang" + [' '] + "cobol";
      LangKeyWord(key, "cobol");
    }
  }

  /** A key `lang <word>` splits into `lang` and the word that follows the space. */
  lemma LangKeyWord(key: string, word: string)
    requires ' ' !in word && key == "lang" + [' '] + word
    ensures |Split(key, ' ')| > 1 && key[5..] == Split(key, ' ')[1] == word
  {
    LangWord(word);
  }

  /** `"lang " + word` splits into the two words. */
  lemma LangWord(word: string)
    requires ' ' !in word
    ensures Split("lang" + [' '] + word, ' ') == ["lang", word]
    ensures ("lang" + [' '] + word)[5..] == word
  {
    SplitFirst("lang", ' ', word);
    SplitNone(word, ' ');
  }

  /** White space around a line does not change the command. */
  lemma {:induction false} KeyIgnoresSpace(line: string, c: char)
    requires IsSpace(c)
    ensures Key([c] + line) == Key(line)
    ensures Key(line + [c]) == Key(line)
  {
    assert LowerChar(c) == c;
    assert ToLower([c] + line) == [c] + ToLower(line);
    assert ([c] + ToLower(line))[1..] == ToLower(line);
    assert ToLower(line + [c]) == ToLower(line) + [c];
    TrimTrailingSpace(ToLower(line), c);
  }

  /** The session mode: generation type, code target and debug flag. */
  datatype Mode = Mode(genType: int, langModel: string, debug: bool)

  const InitialMode: Mode := Mode(BlackBox.TypeNormal, "nestjs", false)

  /** How a command changes the mode. */
  function NextMode(m: Mode, c: Command): (r: Mode)
    ensures !(c.SetLang? || c == ToggleImage || c == ToggleCode || c == ToggleDebug) ==> r == m
    ensures r.debug != m.debug <==> c == ToggleDebug
    ensures r.langModel != m.langModel ==> c.SetLang?
    ensures c.SetLang? ==> r.genType == BlackBox.TypeCode && r.langModel == c.lang
    ensures c == ToggleImage ==> (r.genType == BlackBox.TypeImage <==> m.genType != BlackBox.TypeImage)
    ensures c == ToggleCode ==> (r.genType == BlackBox.TypeCode <==> m.genType != BlackBox.TypeCode)
  {
    match c
    case SetLang(lang) => m.(langModel := lang, genType := BlackBox.TypeCode)
    case ToggleImage => m.(genType := if m.genType == BlackBox.TypeImage then BlackBox.TypeNormal else BlackBox.TypeImage)
    case ToggleCode => m.(genType := if m.genType == BlackBox.TypeCode then BlackBox.TypeNormal else BlackBox.TypeCode)
    case ToggleDebug => m.(debug := !m.debug)
    case _ => m
  }

  /** A mode the client can serve: one of the three types and a known target. */
  predicate KnownMode(m: Mode)
  {
    m.genType in {BlackBox.TypeNormal, BlackBox.TypeImage, BlackBox.TypeCode} && KnownLang(m.langModel)
  }

  /** Every line keeps the mode known, starting from the initial one. */
  lemma ModeStaysKnown(m: Mode, line: string)
    requires KnownMode(m)
    ensures KnownMode(NextMode(m, ParseCommand(line)))
  {
    if ParseCommand(line).SetLang? {
      SetLangTarget(line);
    }
  }

  /** A toggle pressed twice restores normal and image mode, but from code
      mode `img` twice lands in normal mode. */
  lemma ToggleTwice(m: Mode)
    ensures m.genType != BlackBox.TypeCode ==> NextMode(NextMode(m, ToggleImage), ToggleImage) == m.(genType := if m.genType == BlackBox.TypeImage then m.genType else BlackBox.TypeNormal)
    ensures m.genType == BlackBox.TypeCode ==> NextMode(NextMode(m, ToggleImage), ToggleImage).genType == BlackBox.TypeNormal
    ensures m.genType != BlackBox.TypeImage ==> NextMode(NextMode(m, ToggleCode), ToggleCode) == m.(genType := if m.genType == BlackBox.TypeCode then m.genType else BlackBox.TypeNormal)
    ensures NextMode(NextMode(m, ToggleDebug), ToggleDebug) == m
  {
  }

  /** `split(/\r?\n/)`: line feeds, with a carriage return just before one dropped too. */
  function HelpLines(help: string): (lines: seq<string>)
    ensures |lines| == |Split(help, '\n')|
    ensures forall i :: 0 <= i < |lines| ==>
      if i < |lines| - 1 && EndsWith(Split(help, '\n')[i], "\r") then Split(help, '\n')[i] == lines[i] + "\r"
      else lines[i] == Split(help, '\n')[i]
  {
    var parts := Split(help, '\n');
    seq(|parts|, i requires 0 <= i < |parts| =>
      if i < |parts| - 1 && EndsWith(parts[i], "\r") then parts[i][..|parts[i]| - 1] else parts[i])
  }

  /** `s.split(":")[0].split(" ")`: the words before the first colon. */
  function Words(line: string): seq<string>
  {
    Split(Split(line, ':')[0], ' ')
  }

  /** `.map(s => s.trim()).filter(s => s.length > 3)`. */
  function LongWords(words: seq<string>): (r: seq<string>)
    ensures |r| <= |words|
    ensures forall w :: w in r ==> |w| > 3
  {
    if words == [] then []
    else (if |Trim(words[0])| > 3 then [Trim(words[0])] else []) + LongWords(words[1..])
  }

  /** The command words of the lines that start with a star, in order. */
  function StarredWords(lines: seq<string>): (r: seq<string>)
    ensures forall w :: w in r ==> |w| > 3
  {
    if lines == [] then []
    else (if StartsWith(Trim(lines[0]), "*") then LongWords(Words(lines[0])) else []) + StarredWords(lines[1..])
  }

  /** `systemCommands`: the completion candidates taken from the help text. */
  function SystemCommands(help: string): (r: seq<string>)
    ensures forall c :: c in r ==> |c| > 3
  {
    StarredWords(HelpLines(help))
  }

  /** Word `i`, trimmed, is `c` and longer than three characters. */
  predicate LongAt(words: seq<string>, i: int, c: string)
  {
    0 <= i < |words| && c == Trim(words[i]) && |c| > 3
  }

  /** The long words of a list are those of its first word and those of the rest. */
  lemma LongCons(words: seq<string>, c: string)
    requires words != []
    ensures c in LongWords(words) <==> LongAt(words, 0, c) || c in LongWords(words[1..])
  {
    var head := if |Trim(words[0])| > 3 then [Trim(words[0])] else [];
    assert LongWords(words) == head + LongWords(words[1..]);
  }

  /** Word `i` of the rest is word `i + 1` of the whole. */
  lemma LongShift(words: seq<string>, i: int, c: string)
    requires words != [] && 0 < i
    ensures LongAt(words, i, c) <==> LongAt(words[1..], i - 1, c)
  {
    if i < |words| {
      assert words[1..][i - 1] == words[i];
    }
  }

  /** One word of `LongWordsExact`: the first word joins the rest. */
  lemma LongStep(words: seq<string>, c: string)
    requires words != []
    requires c in LongWords(words[1..]) <==> exists i :: LongAt(words[1..], i, c)
    ensures c in LongWords(words) <==> exists i :: LongAt(words, i, c)
  {
    LongCons(words, c);
    if exists i :: LongAt(words, i, c) {
      var i :| LongAt(words, i, c);
      if i > 0 {
        LongShift(words, i, c);
      }
    }
    if c in LongWords(words[1..]) {
      var i :| LongAt(words[1..], i, c);
      LongShift(words, i + 1, c);
    }
  }

  /** Every long word is a trimmed word of the list, and every trimmed word longer than three characters is kept. */
  lemma {:induction false} LongWordsExact(words: seq<string>, c: string)
    ensures c in LongWords(words) <==> exists i :: LongAt(words, i, c)
  {
    if words != [] {
      LongWordsExact(words[1..], c);
      LongStep(words, c);
    }
  }

  /** Line `i` of the help text is starred and offers `c`. */
  predicate StarredAt(lines: seq<string>, i: int, c: string)
  {
    0 <= i < |lines| && StartsWith(Trim(lines[i]), "*") && c in LongWords(Words(lines[i]))
  }

  /** The candidates of the help lines are those of the first line and those of the rest. */
  lemma StarredCons(lines: seq<string>, c: string)
    requires lines != []
    ensures c in StarredWords(lines) <==> StarredAt(lines, 0, c) || c in StarredWords(lines[1..])
  {
    var head := if StartsWith(Trim(lines[0]), "*") then LongWords(Words(lines[0])) else [];
    assert StarredWords(lines) == head + StarredWords(lines[1..]);
  }

  /** Line `i` of the rest is line `i + 1` of the whole. */
  lemma StarredShift(lines: seq<string>, i: int, c: string)
    requires lines != [] && 0 < i
    ensures StarredAt(lines, i, c) <==> StarredAt(lines[1..], i - 1, c)
  {
    if i < |lines| {
      assert lines[1..][i - 1] == lines[i];
    }
  }

  /** One line of `StarredWordsExact`: the first line joins the rest. */
  lemma StarredStep(lines: seq<string>, c: string)
    requires lines != []
    requires c in StarredWords(lines[1..]) <==> exists i :: StarredAt(lines[1..], i, c)
    ensures c in StarredWords(lines) <==> exists i :: StarredAt(lines, i, c)
  {
    StarredCons(lines, c);
    if exists i :: StarredAt(lines, i, c) {
      var i :| StarredAt(lines, i, c);
      if i > 0 {
        StarredShift(lines, i, c);
      }
    }
    if c in StarredWords(lines[1..]) {
      var i :| StarredAt(lines[1..], i, c);
      StarredShift(lines, i + 1, c);
    }
  }

  /** The candidates are exactly the long words of the starred lines. */
  lemma {:induction false} StarredWordsExact(lines: seq<string>, c: string)
    ensures c in StarredWords(lines) <==> exists i :: StarredAt(lines, i, c)
  {
    if lines != [] {
      StarredWordsExact(lines[1..], c);
      StarredStep(lines, c);
    }
  }

  /** Each piece of a split is made of characters of the text. */
  lemma {:induction false} SplitPiecesFrom(s: string, sep: char, i: nat, x: char)
    requires i < |Split(s, sep)| && x in Split(s, sep)[i]
    ensures x in s
  {
    if |s| > 0 {
      var rest := Split(s[1..], sep);
      if s[0] == sep {
        if i > 0 {
          SplitPiecesFrom(s[1..], sep, i - 1, x);
        }
      } else if i == 0 {
        if x != s[0] {
          assert x in rest[0];
          SplitPiecesFrom(s[1..], sep, 0, x);
        }
      } else {
        SplitPiecesFrom(s[1..], sep, i, x);
      }
    }
  }

  /** A word of a line has no space and no colon. */
  lemma WordHasNoSeparator(l: string, i: nat)
    requires i < |Words(l)|
    ensures ' ' !in Words(l)[i] && ':' !in Words(l)[i]
  {
    forall x | x in Words(l)[i]
      ensures x != ':'
    {
      SplitPiecesFrom(Split(l, ':')[0], ' ', i, x);
    }
  }

  /** Trimming a word keeps it free of a character and makes it trimmed. */
  lemma TrimmedWord(w: string, x: char)
    requires x !in w
    ensures x !in Trim(w) && Trim(Trim(w)) == Trim(w)
  {
    TrimIdempotent(w);
    var k := TrimSlice(w);
    forall m | 0 <= m < |Trim(w)|
      ensures Trim(w)[m] != x
    {
      assert Trim(w)[m] == w[k + m];
    }
  }

  /** Every candidate is a trimmed word longer than three characters with no space or colon in it. */
  lemma SystemCommandsShape(help: string, c: string)
    requires c in SystemCommands(help)
    ensures |c| > 3 && Trim(c) == c && ' ' !in c && ':' !in c
  {
    var lines := HelpLines(help);
    StarredWordsExact(lines, c);
    var li :| StarredAt(lines, li, c);
    var ws := Words(lines[li]);
    LongWordsExact(ws, c);
    var i :| LongAt(ws, i, c);
    WordHasNoSeparator(lines[li], i);
    TrimmedWord(ws[i], ' ');
    TrimmedWord(ws[i], ':');
  }

  /** Every long enough word before the colon of a starred help line is a candidate. */
  lemma SystemCommandsComplete(help: string, li: nat, i: nat)
    requires li < |HelpLines(help)| && StartsWith(Trim(HelpLines(help)[li]), "*")
    requires i < |Words(HelpLines(help)[li])| && |Trim(Words(HelpLines(help)[li])[i])| > 3
    ensures Trim(Words(HelpLines(help)[li])[i]) in SystemCommands(help)
  {
    var lines := HelpLines(help);
    var c := Trim(Words(lines[li])[i]);
    assert LongAt(Words(lines[li]), i, c);
    LongWordsExact(Words(lines[li]), c);
    assert StarredAt(lines, li, c);
    StarredWordsExact(lines, c);
  }

  /** `commands.filter(c => c.startsWith(key))`, in order. */
  function Matching(commands: seq<string>, key: string): (r: seq<string>)
    ensures forall c :: c in r <==> c in commands && StartsWith(c, key)
    ensures |r| <= |commands|
  {
    if commands == [] then []
    else
      var rest := Matching(commands[1..], key);
      assert commands == [commands[0]] + commands[1..];
      (if StartsWith(commands[0], key) then [commands[0]] else []) + rest
  }

  /** What the completer asks of its environment. */
  datatype CompleterEnv = CompleterEnv(untildify: string -> string, fileExists: string -> bool, listDir: string -> seq<string>)

  /** The path completions of a line with a slash: the entries of its
      directory that start with what follows the last slash, with the directory in front. */
  function FileHits(line: string, env: CompleterEnv): (hits: seq<string>)
    ensures forall h :: h in hits ==> exists i :: 0 <= i < |line| && line[i] == '/' && StartsWith(h, line[..i + 1])
  {
    match LastIndexOf(line, '/')
    case None => []
    case Some(i) =>
      var dir := line[..i + 1];
      if !env.fileExists(env.untildify(dir)) then []
      else
        var files := Matching(env.listDir(env.untildify(dir)), line[i + 1..]);
        var hits := seq(|files|, k requires 0 <= k < |files| => dir + files[k]);
        assert forall h :: h in hits ==> StartsWith(h, dir) by {
          forall h | h in hits
            ensures StartsWith(h, dir)
          {
            var k :| 0 <= k < |hits| && hits[k] == h;
            assert h[..|dir|] == dir;
          }
        }
        hits
  }

  /** The completer: path completions first, else the commands that start
      with the key, else every command. */
  function Complete(commands: seq<string>, line: string, env: CompleterEnv): (r: seq<string>)
    ensures FileHits(line, env) != [] ==> r == FileHits(line, env)
    ensures FileHits(line, env) == [] ==> forall c :: c in r ==> c in commands
    ensures r == [] <==> FileHits(line, env) == [] && commands == []
  {
    var files := FileHits(line, env);
    if files != [] then files
    else
      var hits := Matching(commands, Key(line));
      if hits != [] then hits else commands
  }

  /** Without path completions, the completer offers exactly the matching
      commands when there are any, and every command otherwise. */
  lemma CompleteCommands(commands: seq<string>, line: string, env: CompleterEnv)
    requires FileHits(line, env) == []
    ensures forall c :: c in Complete(commands, line, env) ==> c in commands
    ensures (exists c :: c in commands && StartsWith(c, Key(line))) ==>
      forall c :: c in Complete(commands, line, env) <==> c in commands && StartsWith(c, Key(line))
    ensures (forall c :: c in commands ==> !StartsWith(c, Key(line))) ==> Complete(commands, line, env) == commands
  {
    var hits := Matching(commands, Key(line));
    if hits != [] {
      assert hits[0] in hits;
    }
  }

  /** How handling a line ends: the prompt is shown again, the interface
      closes, the line stays pending without a new prompt, or the handler
      throws outside any `try`. */
  datatype Outcome = Next | Closed | Stalled | Crashed(error: JsError)

  /** The outside world of a session. */
  datatype Env = Env(
    docs: DocChat.Env,
    search: string -> Option<seq<Chat.SearchItem>>,
    send: BlackBox.ChatRequest -> Option<string>,
    fetch: string -> bool,
    parse: string -> Option<seq<BlackBox.FileRecord>>,
    cwd: string,
    downloads: string,
    now: string,
    stringify: seq<History.View> -> string)

  /** The file `export` writes. */
  function ExportPath(env: Env): string
  {
    env.downloads + "/" + env.now + ".chatml.json"
  }

  /** The files, directories and write log of a disk. */
  function Snapshot(disk: Disk): (p: BlackBox.Progress)
    reads disk
    ensures p.files == disk.files && p.dirs == disk.dirs && p.writes == disk.writes && p.ok
  {
    BlackBox.Progress(disk.files, disk.dirs, disk.writes, true)
  }

  /** Two states of the disk agree on files, directories and writes. */
  predicate SameDisk(p: BlackBox.Progress, q: BlackBox.Progress)
  {
    p.files == q.files && p.dirs == q.dirs && p.writes == q.writes
  }

  /** What a message sent to the chat in mode `m` does to the disk: in code
      mode, a reply is materialised under the working directory; otherwise
      nothing changes. */
  function PromptDisk(m: Mode, line: string, env: Env, p0: BlackBox.Progress, denied: set<string>): (p: BlackBox.Progress)
    ensures m.genType != BlackBox.TypeCode ==> p == p0
    ensures p0.dirs <= p.dirs && p0.writes <= p.writes
  {
    var r := Chat.Reply(m.genType, m.langModel, Chat.Engineered(line), env.send, env.fetch);
    if m.genType == BlackBox.TypeCode && r.Ok? && r.value.Some? then
      BlackBox.Materialize(r.value.value, env.cwd, env.parse, p0, denied)
    else p0
  }

  /** The state of the REPL: the mode, and the history, documents and disk it shares with every chat. */
  class Session {
    var mode: Mode
    const history: History.History
    const docChat: DocChat.DocChat
    const disk: Disk

    /** The history keeps its system prompts, so it is never empty; the mode is known. */
    ghost predicate Valid()
      reads this, history, disk
    {
      && history.system == Config.SystemPrompts
      && |history.entries| >= |Config.SystemPrompts|
      && disk.Valid()
      && KnownMode(mode)
    }

    constructor (disk: Disk)
      requires disk.Valid()
      ensures Valid()
      ensures mode == InitialMode && this.disk == disk
      ensures history.entries == History.Seeded(Config.SystemPrompts) && !docChat.hasDocs
      ensures fresh(history) && fresh(docChat)
    {
      mode := InitialMode;
      history := new History.History(Config.SystemPrompts);
      docChat := new DocChat.DocChat();
      this.disk := disk;
    }

    /** The `line` handler. */
    method HandleLine(line: string, env: Env) returns (outcome: Outcome)
      requires Valid()
      requires history != docChat as object
      modifies this, history, docChat, disk
      ensures Valid()
      ensures mode == NextMode(old(mode), ParseCommand(line))
      ensures outcome == Closed <==> ParseCommand(line) == Quit
      ensures ParseCommand(line) !in {Quit, Speak, Copy, Export, Prompt} ==> outcome == Next
      ensures ParseCommand(line) == Speak || ParseCommand(line) == Copy ==> outcome == Crashed(ReferenceError("Role"))
      ensures ParseCommand(line) == ClearAll ==> history.entries == History.Seeded(Config.SystemPrompts) && !docChat.hasDocs
      ensures ParseCommand(line) == Export ==>
        (outcome == Next <==> Writable(Canon(ExportPath(env)), old(disk.dirs), disk.denied)) &&
        disk.writes == old(disk.writes) + (if outcome == Next then [Write(Canon(ExportPath(env)), env.stringify(History.Views(old(history.entries))))] else []) &&
        disk.files == (if outcome == Next then old(disk.files)[Canon(ExportPath(env)) := env.stringify(History.Views(old(history.entries)))] else old(disk.files))
      ensures ParseCommand(line) == Prompt ==>
        (outcome == Stalled <==> !Contains(line, Config.ImagePhrase) && DocChat.IsSupported(line, env.docs)) &&
        (outcome != Stalled ==> outcome == Next)
      ensures ParseCommand(line) == Prompt && outcome == Next ==>
        history.entries == old(history.entries) +
          Chat.Logged(None, Chat.Augmented(line, old(docChat.hasDocs), env.search), old(mode).genType, old(mode).langModel,
                      Chat.Engineered(line), env.send)
      ensures ParseCommand(line) == Prompt ==>
        SameDisk(Snapshot(disk), if outcome == Next then PromptDisk(old(mode), line, env, old(Snapshot(disk)), disk.denied) else old(Snapshot(disk)))
      ensures ParseCommand(line) != Prompt && ParseCommand(line) != ClearAll ==> history.entries == old(history.entries)
      ensures ParseCommand(line) != ClearAll ==> docChat.hasDocs == old(docChat.hasDocs)
      ensures ParseCommand(line) != Prompt ==> disk.dirs == old(disk.dirs)
      ensures ParseCommand(line) != Prompt && ParseCommand(line) != Export ==> SameDisk(Snapshot(disk), old(Snapshot(disk)))
    {
      var command := ParseCommand(line);
      ModeStaysKnown(mode, line);
      mode := NextMode(mode, command);
      outcome := Dispatch(command, line, env);
    }

    /** What a parsed command does once the mode is updated. */
    method Dispatch(command: Command, line: string, env: Env) returns (outcome: Outcome)
      requires Valid()
      requires history != docChat as object
      modifies history, docChat, disk
      ensures Valid()
      ensures outcome == Closed <==> command == Quit
      ensures command !in {Quit, Speak, Copy, Export, Prompt} ==> outcome == Next
      ensures command == Speak || command == Copy ==> outcome == Crashed(ReferenceError("Role"))
      ensures command == ClearAll ==> history.entries == History.Seeded(Config.SystemPrompts) && !docChat.hasDocs
      ensures command == Export ==>
        (outcome == Next <==> Writable(Canon(ExportPath(env)), old(disk.dirs), disk.denied)) &&
        disk.writes == old(disk.writes) + (if outcome == Next then [Write(Canon(ExportPath(env)), env.stringify(History.Views(old(history.entries))))] else []) &&
        disk.files == (if outcome == Next then old(disk.files)[Canon(ExportPath(env)) := env.stringify(History.Views(old(history.entries)))] else old(disk.files))
      ensures command == Prompt ==>
        (outcome == Stalled <==> !Contains(line, Config.ImagePhrase) && DocChat.IsSupported(line, env.docs)) &&
        (outcome != Stalled ==> outcome == Next)
      ensures command == Prompt && outcome == Next ==>
        history.entries == old(history.entries) +
          Chat.Logged(None, Chat.Augmented(line, old(docChat.hasDocs), env.search), mode.genType, mode.langModel,
                      Chat.Engineered(line), env.send)
      ensures command == Prompt ==>
        SameDisk(Snapshot(disk), if outcome == Next then PromptDisk(mode, line, env, old(Snapshot(disk)), disk.denied) else old(Snapshot(disk)))
      ensures command != Prompt && command != ClearAll ==> history.entries == old(history.entries)
      ensures command != ClearAll ==> docChat.hasDocs == old(docChat.hasDocs)
      ensures command != Prompt ==> disk.dirs == old(disk.dirs)
      ensures command != Prompt && command != Export ==> SameDisk(Snapshot(disk), old(Snapshot(disk)))
    {
      match command
      case Quit =>
        outcome := Closed;
      case ClearAll =>
        history.Clear();
        docChat.Clear();
        outcome := Next;
      case Export =>
        outcome := ExportHistory(env);
      case Speak =>
        var last := history.LastMessage();
        outcome := if last.Err? then Crashed(last.error) else Next;
      case Copy =>
        var last := history.LastMessage();
        outcome := if last.Err? then Crashed(last.error) else Next;
      case Prompt =>
        outcome := RunPrompt(line, env);
      case _ =>
        outcome := Next;
    }

    /** The `export` command: the history's views, stringified, written to
        a file named after the current time in the downloads folder. */
    method ExportHistory(env: Env) returns (outcome: Outcome)
      requires disk.Valid()
      modifies disk
      ensures disk.Valid()
      ensures outcome == Next <==> Writable(Canon(ExportPath(env)), old(disk.dirs), disk.denied)
      ensures outcome != Next ==> outcome.Crashed?
      ensures disk.writes == old(disk.writes) + (if outcome == Next then [Write(Canon(ExportPath(env)), env.stringify(History.Views(history.entries)))] else [])
      ensures disk.files == if outcome == Next then old(disk.files)[Canon(ExportPath(env)) := env.stringify(History.Views(history.entries))] else old(disk.files)
      ensures disk.dirs == old(disk.dirs)
    {
      var views := history.Get();
      assert views == History.Views(history.entries);
      var ok := disk.WriteFile(ExportPath(env), env.stringify(views));
      outcome := if ok then Next else Crashed(Error("cannot write " + ExportPath(env)));
    }

    /** A line that is no command: a document path is loaded first (which
        never succeeds), anything else goes to the chat. */
    method RunPrompt(line: string, env: Env) returns (outcome: Outcome)
      requires Valid()
      requires history != docChat as object
      modifies history, docChat, disk
      ensures Valid()
      ensures outcome == Stalled <==> !Contains(line, Config.ImagePhrase) && DocChat.IsSupported(line, env.docs)
      ensures outcome != Stalled ==> outcome == Next
      ensures outcome == Next ==>
        history.entries == old(history.entries) +
          Chat.Logged(None, Chat.Augmented(line, old(docChat.hasDocs), env.search), mode.genType, mode.langModel,
                      Chat.Engineered(line), env.send)
      ensures outcome != Next ==> history.entries == old(history.entries)
      ensures SameDisk(Snapshot(disk), if outcome == Next then PromptDisk(mode, line, env, old(Snapshot(disk)), disk.denied) else old(Snapshot(disk)))
      ensures docChat.hasDocs == old(docChat.hasDocs)
    {
      var chat := new Chat.Chat(line, mode.genType, mode.debug, mode.langModel, history, docChat, env.cwd);
      if !Contains(line, Config.ImagePhrase) && DocChat.IsSupported(line, env.docs) {
        var summary := docChat.Add(line, env.docs);
        if summary.Err? {
          outcome := Stalled;
          return;
        }
      }
      var answer := chat.DoChat(None, env.search, env.send, env.fetch, env.parse, disk);
      outcome := Next;
    }
  }
}

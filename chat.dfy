/** One chat turn: the prompt is engineered (a web search when the message
    asks for one), the request for the current mode is sent, the exchange is
    logged, and in code mode the reply is written out as files. */
module Chat {
  import opened Values
  import opened Text
  import opened Config
  import opened FileSystem
  import BlackBox
  import History
  import DocChat

  const PromptAddSourceJson: string := "format source code files as json array containing for every file generated, name and code without markdown"

  const NestJsPrompt: string := "You are designing a RESTful API using NestJS that interacts with a PostgreSQL database, adhering to best practices for security, error handling, and performance optimization;"
  const CobolPrompt: string := "You are designing a batch procedure written in cobol that interacts with a PostgreSQL database, adhering to best practices for security, error handling, and performance optimization;"
  const SveltePrompt: string := "You are designing a frontend application written in svelte that interacts with api REST backend, adhering to best practices for security, error handling, and performance optimization;"

  /** `PROMPTS[langModel]`: the instructions for each supported target. */
  function LangPrompt(lang: string): (p: Option<string>)
    ensures p.Some? <==> lang == "nestjs" || lang == "cobol" || lang == "svelte"
  {
    if lang == "nestjs" then Some(NestJsPrompt)
    else if lang == "cobol" then Some(CobolPrompt)
    else if lang == "svelte" then Some(SveltePrompt)
    else None
  }

  /** The text sent in code mode: the target's instructions, the request
      for a JSON array of files, then the message. */
  function CodeRequest(lang: string, message: string): string
  {
    Str(LangPrompt(lang)) + " " + PromptAddSourceJson + ";" + message
  }

  /** A search result: organic results have all three fields, other kinds
      leave some `undefined`. */
  datatype SearchItem = SearchItem(link: Option<string>, title: Option<string>, description: Option<string>)

  /** The bullet a result becomes. */
  function Bullet(item: SearchItem): string
  {
    "- [ " + Str(item.link) + " ] " + Str(item.title) + ": " + Str(item.description) + "\n"
  }

  function Bullets(items: seq<SearchItem>): (bs: seq<string>)
    ensures |bs| == |items|
    ensures forall i :: 0 <= i < |items| ==> bs[i] == Bullet(items[i])
  {
    seq(|items|, i requires 0 <= i < |items| => Bullet(items[i]))
  }

  /** The query of a web request: the first force phrase replaced by a space, then trimmed. */
  function WebQuery(message: string): string
  {
    Trim(ReplaceFirst(message, ForcePhrase, " "))
  }

  /** The message after prompt engineering: rewritten only for a web request. */
  function Engineered(message: string): string
  {
    if Contains(message, ForcePhrase) then WebQuery(message) else message
  }

  /** What `promptEngineer` returns: for a web request, the query with the
      search results (`undefined` when the search throws); with documents,
      `undefined` (the branch reads the unbound name `params` and the error
      is caught); otherwise the message itself. */
  function Augmented(message: string, hasDocs: bool, search: string -> Option<seq<SearchItem>>): (r: Option<string>)
    ensures r.None? <==>
      (Contains(message, ForcePhrase) && search(WebQuery(message)).None?) || (!Contains(message, ForcePhrase) && hasDocs)
    ensures !Contains(message, ForcePhrase) && !hasDocs ==> r == Some(message)
  {
    if Contains(message, ForcePhrase) then
      match search(WebQuery(message))
      case None => None
      case Some(items) => Some(PreFacto(WebQuery(message), Join(Bullets(items), "\n")))
    else if hasDocs then None
    else Some(message)
  }

  /** A web request is answered the same way with or without documents. */
  lemma WebBeforeDocs(message: string, search: string -> Option<seq<SearchItem>>)
    requires Contains(message, ForcePhrase)
    ensures Augmented(message, true, search) == Augmented(message, false, search)
  {
  }

  /** Without a force phrase and without documents, the prompt is the message. */
  lemma PlainPassesThrough(message: string, hasDocs: bool, search: string -> Option<seq<SearchItem>>)
    requires !Contains(message, ForcePhrase)
    ensures Augmented(message, hasDocs, search) == (if hasDocs then None else Some(message))
  {
  }

  /** Every result's bullet appears in the prompt built from the results. */
  lemma PromptListsBullet(q: string, items: seq<SearchItem>, k: nat)
    requires k < |items|
    ensures Contains(PreFacto(q, Join(Bullets(items), "\n")), Bullet(items[k]))
  {
    var result := Join(Bullets(items), "\n");
    var p := PreFacto(q, result);
    var j := JoinHasPart(Bullets(items), "\n", k);
    PreFactoHasResult(q, result);
    OccursWithin(p, result, |PreFactoHead + q + PreFactoMiddle|, Bullet(items[k]), j);
    ContainsAt(p, Bullet(items[k]), |PreFactoHead + q + PreFactoMiddle| + j);
  }

  /** An augmented prompt quotes the query and lists every result. */
  lemma AugmentedMentionsResults(message: string, hasDocs: bool, search: string -> Option<seq<SearchItem>>)
    requires Contains(message, ForcePhrase) && search(WebQuery(message)).Some?
    ensures Augmented(message, hasDocs, search).Some?
    ensures Contains(Augmented(message, hasDocs, search).value, WebQuery(message))
    ensures forall item :: item in search(WebQuery(message)).value ==>
      Contains(Augmented(message, hasDocs, search).value, Bullet(item))
  {
    var q := WebQuery(message);
    var items := search(q).value;
    var p := PreFacto(q, Join(Bullets(items), "\n"));
    assert Augmented(message, hasDocs, search) == Some(p);
    PreFactoHasQuery(q, Join(Bullets(items), "\n"));
    ContainsAt(p, q, |PreFactoHead|);
    forall item | item in items
      ensures Contains(p, Bullet(item))
    {
      var k :| 0 <= k < |items| && items[k] == item;
      PromptListsBullet(q, items, k);
    }
  }

  /** A message that starts with the force phrase asks about the rest of it, trimmed. */
  lemma {:induction false} LeadingPhraseQuery(rest: string)
    ensures WebQuery(ForcePhrase + rest) == Trim(rest)
  {
    var m := ForcePhrase + rest;
    assert OccursAt(m, ForcePhrase, 0);
    assert IndexOf(m, ForcePhrase) == Some(0);
    assert ReplaceFirst(m, ForcePhrase, " ") == " " + rest;
    assert (" " + rest)[1..] == rest;
  }

  /** "[web] <question>" asks about the question. */
  lemma LeadingPhraseSpace(question: string)
    requires question == [] || (!IsSpace(question[0]) && !IsSpace(question[|question| - 1]))
    ensures WebQuery(ForcePhrase + " " + question) == question
  {
    LeadingPhraseQuery(" " + question);
    assert ForcePhrase + " " + question == ForcePhrase + (" " + question);
    assert (" " + question)[1..] == question;
    TrimTrimmed(question);
  }

  /** The force phrase and the space after it are dropped from the query. */
  lemma WebQueryExample()
    ensures WebQuery("[web] France") == "France"
  {
    var question := "France";
    LeadingPhraseSpace(question);
    assert ForcePhrase + " " + question == "[web] France";
  }

  /** The text sent for a mode: the message, or in code mode the code request around it. */
  function Outgoing(genType: int, lang: string, message: string): string
  {
    if genType == BlackBox.TypeCode then CodeRequest(lang, message) else message
  }

  /** The request sent never contains the search results: in every mode it
      is built from the engineered message alone. */
  lemma OutgoingIgnoresPrompt(genType: int, lang: string, message: string)
    ensures genType != BlackBox.TypeCode ==> Outgoing(genType, lang, message) == message
    ensures genType == BlackBox.TypeCode ==> EndsWith(Outgoing(genType, lang, message), ";" + message)
  {
    if genType == BlackBox.TypeCode {
      var o := Outgoing(genType, lang, message);
      var head := Str(LangPrompt(lang)) + " " + PromptAddSourceJson;
      assert o == head + (";" + message);
      assert o[|o| - |";" + message|..] == ";" + message;
    }
  }

  /** What `makeRequest` yields: in normal and image mode nothing (the
      rendered reply is printed, not returned), in code mode the reply; a
      failed request, or a failed image download, reaches the handler, whose
      own reference to an unbound name throws again. A mode outside the
      three sends nothing. */
  function Reply(genType: int, lang: string, message: string,
                 send: BlackBox.ChatRequest -> Option<string>, fetch: string -> bool): (r: Result<Option<string>>)
    ensures r.Err? ==> r.error == ReferenceError("message")
    ensures r.Ok? && r.value.Some? <==>
      genType == BlackBox.TypeCode && BlackBox.Chat(Outgoing(genType, lang, message), genType, send).Ok?
    ensures r.Ok? && r.value.Some? ==> r.value.value == BlackBox.Chat(Outgoing(genType, lang, message), genType, send).value
    ensures r.Err? <==>
      genType in {BlackBox.TypeNormal, BlackBox.TypeImage, BlackBox.TypeCode} &&
      (BlackBox.Chat(Outgoing(genType, lang, message), genType, send).Err? ||
       (genType == BlackBox.TypeImage &&
        BlackBox.GenImage(BlackBox.Chat(Outgoing(genType, lang, message), genType, send).value, fetch).Err?))
  {
    if genType !in {BlackBox.TypeNormal, BlackBox.TypeImage, BlackBox.TypeCode} then Ok(None)
    else
      match BlackBox.Chat(Outgoing(genType, lang, message), genType, send)
      case Err(_) => Err(ReferenceError("message"))
      case Ok(reply) =>
        if genType == BlackBox.TypeCode then Ok(Some(reply))
        else if genType == BlackBox.TypeImage && BlackBox.GenImage(reply, fetch).Err? then Err(ReferenceError("message"))
        else Ok(None)
  }

  /** The entry logged with the reply: the engineered prompt and the reply on the next line. */
  function Exchange(pre: Option<string>, reply: string): History.Entry
  {
    History.Bare(Str(pre) + "\n" + reply)
  }

  /** The entries a turn adds: the prompt argument, then the exchange when the service answered. */
  function Logged(prompt: Option<string>, pre: Option<string>, genType: int, lang: string, message: string,
                  send: BlackBox.ChatRequest -> Option<string>): (ls: seq<History.Entry>)
    ensures 1 <= |ls| <= 2 && ls[0] == History.Message(prompt, None)
    ensures |ls| == 2 <==>
      genType in {BlackBox.TypeNormal, BlackBox.TypeImage, BlackBox.TypeCode} &&
      BlackBox.Chat(Outgoing(genType, lang, message), genType, send).Ok?
    ensures |ls| == 2 ==> ls[1] == Exchange(pre, BlackBox.Chat(Outgoing(genType, lang, message), genType, send).value)
  {
    [History.Message(prompt, None)] +
    (if genType !in {BlackBox.TypeNormal, BlackBox.TypeImage, BlackBox.TypeCode} then []
     else
       match BlackBox.Chat(Outgoing(genType, lang, message), genType, send)
       case Err(_) => []
       case Ok(reply) => [Exchange(pre, reply)])
  }

  /** What `doChat` returns: the value of the request, or the engineered
      message when the request threw. */
  function Answer(r: Result<Option<string>>, message: string): Option<string>
  {
    match r
    case Ok(v) => v
    case Err(_) => Some(message)
  }

  /** A failed request answers with the message that was (or would have been) sent. */
  lemma FailedRequestEchoes(genType: int, lang: string, message: string,
                            send: BlackBox.ChatRequest -> Option<string>, fetch: string -> bool)
    requires genType in {BlackBox.TypeNormal, BlackBox.TypeImage, BlackBox.TypeCode}
    requires send(BlackBox.RequestBody(Outgoing(genType, lang, message), genType)).None?
    ensures Answer(Reply(genType, lang, message, send, fetch), message) == Some(message)
  {
  }

  /** Only code mode returns the reply. */
  lemma OnlyCodeReturnsReply(genType: int, lang: string, message: string,
                             send: BlackBox.ChatRequest -> Option<string>, fetch: string -> bool)
    requires Reply(genType, lang, message, send, fetch).Ok?
    ensures Reply(genType, lang, message, send, fetch).value.Some? <==> genType == BlackBox.TypeCode
  {
  }

  /** One chat: its parameters, the message it may rewrite, and the session
      objects it shares. */
  class Chat {
    var message: string
    const genType: int
    const debug: bool
    const langModel: string
    const history: History.History
    const docChat: DocChat.DocChat
    const outDir: string

    /** `new Chat(params, spinner, history, docChat, prompts, outDir)`. */
    constructor (message: string, genType: int, debug: bool, langModel: string,
                 history: History.History, docChat: DocChat.DocChat, outDir: string)
      ensures this.message == message && this.genType == genType && this.debug == debug
      ensures this.langModel == langModel && this.history == history && this.docChat == docChat
      ensures this.outDir == outDir
    {
      this.message := message;
      this.genType := genType;
      this.debug := debug;
      this.langModel := langModel;
      this.history := history;
      this.docChat := docChat;
      this.outDir := outDir;
    }

    /** `promptEngineer()`: a web request rewrites the message to its query
        and wraps the search results around it. */
    method PromptEngineer(search: string -> Option<seq<SearchItem>>) returns (pre: Option<string>)
      modifies this
      ensures message == Engineered(old(message))
      ensures pre == Augmented(old(message), docChat.hasDocs, search)
    {
      if Contains(message, ForcePhrase) {
        message := Trim(ReplaceFirst(message, ForcePhrase, " "));
        var found := search(message);
        match found
        case None =>
          pre := None;
        case Some(items) =>
          var result: seq<string> := [];
          for i := 0 to |items|
            invariant result == Bullets(items[..i])
          {
            result := result + [Bullet(items[i])];
          }
          assert items[..|items|] == items;
          pre := Some(PreFacto(message, Join(result, "\n")));
      } else if docChat.hasDocs {
        pre := None;
      } else {
        pre := Some(message);
      }
    }

    /** `makeRequest(prompt, pre)`: logs the prompt, sends the request for
        the mode, logs the exchange, downloads the image in image mode. */
    method MakeRequest(prompt: Option<string>, pre: Option<string>,
                       send: BlackBox.ChatRequest -> Option<string>, fetch: string -> bool)
      returns (r: Result<Option<string>>)
      modifies history
      ensures r == Reply(genType, langModel, message, send, fetch)
      ensures history.entries == old(history.entries) + Logged(prompt, pre, genType, langModel, message, send)
    {
      history.Add(History.Message(prompt, None));
      if genType == BlackBox.TypeNormal || genType == BlackBox.TypeImage || genType == BlackBox.TypeCode {
        var text := if genType == BlackBox.TypeCode then CodeRequest(langModel, message) else message;
        var obj := BlackBox.Chat(text, genType, send);
        if obj.Err? {
          r := Err(ReferenceError("message"));
          return;
        }
        history.Add(Exchange(pre, obj.value));
        if genType == BlackBox.TypeCode {
          r := Ok(Some(obj.value));
        } else if genType == BlackBox.TypeImage && BlackBox.GenImage(obj.value, fetch).Err? {
          r := Err(ReferenceError("message"));
        } else {
          r := Ok(None);
        }
      } else {
        r := Ok(None);
      }
    }

    /** `doChat(prompt)`: engineers the prompt, makes the request and, in
        code mode, writes the files the reply describes. */
    method DoChat(prompt: Option<string>, search: string -> Option<seq<SearchItem>>,
                  send: BlackBox.ChatRequest -> Option<string>, fetch: string -> bool,
                  parse: string -> Option<seq<BlackBox.FileRecord>>, disk: Disk)
      returns (answer: Option<string>)
      requires disk.Valid()
      modifies this, history, disk
      ensures disk.Valid()
      ensures message == Engineered(old(message))
      ensures var r := Reply(genType, langModel, message, send, fetch);
        && answer == Answer(r, message)
        && history.entries == old(history.entries) +
             Logged(prompt, Augmented(old(message), docChat.hasDocs, search), genType, langModel, message, send)
        && (if genType == BlackBox.TypeCode && r.Ok? && r.value.Some? then
              var p := BlackBox.Materialize(r.value.value, outDir, parse,
                         BlackBox.Progress(old(disk.files), old(disk.dirs), old(disk.writes), true), disk.denied);
              disk.files == p.files && disk.dirs == p.dirs && disk.writes == p.writes
            else disk.files == old(disk.files) && disk.dirs == old(disk.dirs) && disk.writes == old(disk.writes))
    {
      var pre := PromptEngineer(search);
      var ret := MakeRequest(prompt, pre, send, fetch);
      if ret.Err? {
        answer := Some(message);
        return;
      }
      if genType == BlackBox.TypeCode && ret.value.Some? {
        var code := BlackBox.ExtractFilesFromMarkdown(ret.value.value, outDir, parse, disk);
      }
      answer := ret.value;
    }
  }
}

/** The upstream chat client: the request it sends for each generation mode,
    the clean-up of the reply, the image link it follows, the fenced-block
    scanner and the writer that turns a JSON reply into files under
    `<outDir>/tmp/`. */
module BlackBox {
  import opened Values
  import opened Text
  import opened Fences
  import opened Paths
  import opened FileSystem

  /** The generation modes. */
  const TypeNormal: int := 0
  const TypeImage: int := 1
  const TypeCode: int := 2

  /** The `agentMode` field of a request: empty, or a named agent. */
  datatype AgentMode = NoAgent | Agent(mode: bool, id: string, name: string)

  const ImageAgent: AgentMode := Agent(true, "ImageGenerationLV45LJp", "Image Generation")

  /** The agent for a mode: only image generation names one; the code agent
      is set and then overwritten with the empty one. */
  function AgentFor(genType: int): (a: AgentMode)
    ensures a.Agent? <==> genType == TypeImage
    ensures a.Agent? ==> a == ImageAgent
  {
    if genType == TypeImage then ImageAgent else NoAgent
  }

  /** The parts of the request body that vary or that the reply depends on:
      one user message with the text, the agent, and the token budget. */
  datatype ChatRequest = ChatRequest(agentMode: AgentMode, content: string, role: string, maxTokens: nat, codeModelMode: bool)

  function RequestBody(text: string, genType: int): (b: ChatRequest)
    ensures b.content == text && b.role == "user" && b.maxTokens == 4096
    ensures b.agentMode == AgentFor(genType)
  {
    ChatRequest(AgentFor(genType), text, "user", 4096, true)
  }

  /** The delimiter of the metadata spans the service embeds in its replies. */
  const Marker: string := "$@$"

  /** The end of the span `$@$...$@$` that starts `s`, if one does: the
      regular expression's `.*?` stops at the first closing marker and never
      crosses a line terminator. */
  function SpanEnd(s: string): (e: Option<nat>)
    ensures e.Some? ==> 6 <= e.value <= |s| && OccursAt(s, Marker, 0)
    ensures e.Some? ==> forall k :: 0 <= k < e.value ==> !IsLineTerminator(s[k])
    ensures !OccursAt(s, Marker, 0) ==> e.None?
  {
    if !OccursAt(s, Marker, 0) then None
    else
      match LazyUntil(s, Marker, 3)
      case None => None
      case Some(j) =>
        assert s[j..j + 3] == Marker;
        assert forall k :: 0 <= k < 3 ==> s[k] == Marker[k];
        assert forall k :: j <= k < j + 3 ==> s[k] == Marker[k - j];
        Some(j + 3)
  }

  /** `reply.replace(/(\$\@\$.*?\$\@\$)/g, "")`: every metadata span removed,
      scanning left to right and resuming after each removed span. */
  function StripMarkers(s: string): (r: string)
    ensures |r| <= |s|
    decreases |s|
  {
    if |s| == 0 then ""
    else
      match SpanEnd(s)
      case Some(e) => StripMarkers(s[e..])
      case None => [s[0]] + StripMarkers(s[1..])
  }

  /** No span starts in the tail of `a` when none starts in `a`. */
  lemma NoSpanTail(a: string, s: string)
    requires |a| > 0 && forall k :: 0 <= k < |a| ==> SpanEnd((a + s)[k..]).None?
    ensures forall k :: 0 <= k < |a[1..]| ==> SpanEnd((a[1..] + s)[k..]).None?
  {
    var t := a + s;
    assert t[1..] == a[1..] + s;
    forall k | 0 <= k < |a[1..]|
      ensures SpanEnd((a[1..] + s)[k..]).None?
    {
      assert (a[1..] + s)[k..] == t[k + 1..];
    }
  }

  /** Text in which no span starts passes through unchanged, in front of
      whatever follows it: a `$@$` whose line holds no closing marker is kept. */
  lemma {:induction false} StripPlain(a: string, s: string)
    requires forall k :: 0 <= k < |a| ==> SpanEnd((a + s)[k..]).None?
    ensures StripMarkers(a + s) == a + StripMarkers(s)
  {
    if |a| > 0 {
      assert SpanEnd((a + s)[0..]).None? && (a + s)[0..] == a + s;
      NoSpanTail(a, s);
      StripPlain(a[1..], s);
      StripPlainStep(a, s);
      ConsJoin(a, StripMarkers(s), StripMarkers(a[1..] + s), StripMarkers(a + s));
    } else {
      assert a + s == s;
    }
  }

  /** One character of `StripPlain`: a character that opens no span is kept. */
  lemma StripPlainStep(a: string, s: string)
    requires |a| > 0 && SpanEnd(a + s).None?
    ensures StripMarkers(a + s) == [a[0]] + StripMarkers(a[1..] + s)
  {
    assert (a + s)[1..] == a[1..] + s;
  }

  /** Where no marker occurs, no span starts. */
  lemma NoMarkerNoSpan(t: string, i: nat, j: nat)
    requires i <= j <= |t|
    requires forall k :: i <= k < j ==> !OccursAt(t, Marker, k)
    ensures forall k :: i <= k < j ==> SpanEnd(t[k..]).None?
  {
    forall k | i <= k < j
      ensures SpanEnd(t[k..]).None?
    {
      assert !OccursAt(t, Marker, k);
      if k + 3 <= |t| {
        assert t[k..][0..3] == t[k..k + 3];
      }
    }
  }

  /** The first character in front of the rest, in front of `x`, is the whole in front of `x`. */
  lemma ConsJoin(a: string, x: string, y: string, z: string)
    requires |a| > 0 && y == a[1..] + x && z == [a[0]] + y
    ensures z == a + x
  {
    assert a == [a[0]] + a[1..];
  }

  /** A reply without any dollar sign is left as it is. */
  lemma StripNoDollar(s: string)
    requires '$' !in s
    ensures StripMarkers(s) == s
  {
    assert s + "" == s;
    NoMarkerWithoutDollar(s, 0, |s|);
    NoMarkerNoSpan(s + "", 0, |s|);
    StripPlain(s, "");
    assert s + "" == s;
  }

  /** A one-line span is removed, with both markers: the lazy `.*?` ends the
      span at the first closing marker. */
  lemma {:induction false} StripSpan(m: string, s: string)
    requires forall k :: 3 <= k < 3 + |m| ==> !OccursAt(Marker + m + Marker + s, Marker, k)
    requires forall k :: 0 <= k < |m| ==> !IsLineTerminator(m[k])
    ensures StripMarkers(Marker + m + Marker + s) == StripMarkers(s)
  {
    var t := Marker + m + Marker + s;
    assert OccursAt(t, Marker, 0);
    forall k | 3 <= k < 3 + |m|
      ensures !OccursAt(t, Marker, k) && !IsLineTerminator(t[k])
    {
      assert t[k] == m[k - 3];
    }
    assert OccursAt(t, Marker, 3 + |m|);
    LazyUntilReaches(t, Marker, 3, 3 + |m|);
    assert t[6 + |m|..] == s;
  }

  /** `a` is `b` with some characters left out. */
  predicate Subsequence(a: string, b: string)
    decreases |b|
  {
    a == [] || (b != [] && (Subsequence(a, b[1..]) || (a[0] == b[0] && Subsequence(a[1..], b[1..]))))
  }

  /** Leaving out a prefix of `b` keeps a subsequence of the rest a subsequence of `b`. */
  lemma {:induction false} SubsequenceOfSuffix(a: string, b: string, n: nat)
    requires n <= |b| && Subsequence(a, b[n..])
    ensures Subsequence(a, b)
    decreases n
  {
    if n > 0 {
      assert b[n - 1..][1..] == b[n..];
      SubsequenceOfSuffix(a, b, n - 1);
    } else {
      assert b[0..] == b;
    }
  }

  /** Removing the spans only deletes characters: what is left keeps its order. */
  lemma {:induction false} StripSubsequence(s: string)
    ensures Subsequence(StripMarkers(s), s)
    decreases |s|
  {
    if |s| > 0 {
      match SpanEnd(s)
      case Some(e) =>
        StripSubsequence(s[e..]);
        SubsequenceOfSuffix(StripMarkers(s), s, e);
      case None =>
        StripSubsequence(s[1..]);
        var r := StripMarkers(s);
        assert r == [s[0]] + StripMarkers(s[1..]);
        assert r[1..] == StripMarkers(s[1..]);
    }
  }

  /** The lazy scan reaches the first occurrence when nothing stops it before. */
  lemma {:induction false} LazyUntilReaches(s: string, p: string, i: nat, j: nat)
    requires |p| > 0 && i <= j && OccursAt(s, p, j)
    requires forall k :: i <= k < j ==> !OccursAt(s, p, k) && !IsLineTerminator(s[k])
    ensures LazyUntil(s, p, i) == Some(j)
    decreases j - i
  {
    if i < j {
      LazyUntilReaches(s, p, i + 1, j);
    }
  }

  /** No span starts where there is no dollar sign. */
  lemma NoMarkerWithoutDollar(t: string, i: nat, j: nat)
    requires i <= j <= |t|
    requires forall k :: i <= k < j ==> t[k] != '$'
    ensures forall k :: i <= k < j ==> !OccursAt(t, Marker, k)
  {
    forall k | i <= k < j
      ensures !OccursAt(t, Marker, k)
    {
      if k + 3 <= |t| {
        assert t[k..k + 3][0] == t[k];
      }
    }
  }

  /** The lazy scan finds nothing when the line ends before any occurrence. */
  lemma {:induction false} LazyUntilMisses(s: string, p: string, i: nat, j: nat)
    requires |p| > 0 && i <= j <= |s|
    requires forall k :: i <= k < j ==> !OccursAt(s, p, k) && !IsLineTerminator(s[k])
    requires !OccursAt(s, p, j) && (j == |s| || IsLineTerminator(s[j]))
    ensures LazyUntil(s, p, i).None?
    decreases j - i
  {
    if i < j {
      LazyUntilMisses(s, p, i + 1, j);
    }
  }

  /** No span starts at a `$@$` whose line ends before another marker. */
  lemma UnclosedNoSpan(a: string, s: string)
    requires forall k :: 1 <= k < |a| ==> !OccursAt(a + s, Marker, k)
    requires forall k :: 0 <= k < |a| ==> !IsLineTerminator(a[k])
    requires s == [] || IsLineTerminator(s[0])
    ensures SpanEnd(a + s).None?
  {
    var t := a + s;
    if OccursAt(t, Marker, 0) {
      assert |a| >= 3 by {
        assert t[..3] == Marker;
        assert |s| > 0 ==> t[|a|] == s[0];
      }
      forall k | 3 <= k < |a|
        ensures !OccursAt(t, Marker, k) && !IsLineTerminator(t[k])
      {
        assert t[k] == a[k];
      }
      assert |s| > 0 ==> t[|a|] == s[0];
      LazyUntilMisses(t, Marker, 3, |a|);
    }
  }

  /** A `$@$` with no closing marker before the end of its line is kept, with
      the rest of its line. */
  lemma StripUnclosed(a: string, s: string)
    requires forall k :: 1 <= k < |a| ==> !OccursAt(a + s, Marker, k)
    requires forall k :: 0 <= k < |a| ==> !IsLineTerminator(a[k])
    requires s == [] || IsLineTerminator(s[0])
    ensures StripMarkers(a + s) == a + StripMarkers(s)
  {
    var t := a + s;
    if |a| > 0 {
      NoMarkerNoSpan(t, 1, |a|);
      UnclosedNoSpan(a, s);
      assert t[0..] == t;
    }
    StripPlain(a, s);
  }

  /** An unclosed marker stays: "$@$x" is returned as it is. */
  lemma StripUnclosedExample()
    ensures StripMarkers(Marker + "x") == Marker + "x"
  {
    var a := Marker + "x";
    assert a + "" == a;
    forall k | 1 <= k < |a|
      ensures !OccursAt(a + "", Marker, k)
    {
      assert (a + "")[1] == '@';
    }
    StripUnclosed(a, "");
  }

  /** A span never closes on the next line: in "$@$a\n$@$b$@$" the first
      marker is kept and only the second line's span is removed. */
  lemma StripTwoLinesExample()
    ensures StripMarkers(Marker + "a" + ("\n" + (Marker + "b" + Marker + ""))) == Marker + "a" + "\n"
  {
    var rest := "\n" + (Marker + "b" + Marker + "");
    var line := Marker + "a" + rest;
    forall k | 1 <= k < 4
      ensures !OccursAt(line, Marker, k)
    {
      assert line[1] == '@' && line[3] == 'a';
    }
    StripUnclosed(Marker + "a", rest);
    StripSecondLine();
  }

  /** The second line of `StripTwoLinesExample` loses its closed span. */
  lemma StripSecondLine()
    ensures StripMarkers("\n" + (Marker + "b" + Marker + "")) == "\n"
  {
    var span := Marker + "b" + Marker + "";
    var t := "\n" + span;
    NoMarkerWithoutDollar(t, 0, 1);
    NoMarkerNoSpan(t, 0, 1);
    StripPlain("\n", span);
    assert span[3..4] == "b";
    NoMarkerWithoutDollar(span, 3, 4);
    StripSpan("b", "");
  }

  /** A reply that starts with a metadata span loses it. */
  lemma StripLeadingSpanExample()
    ensures StripMarkers(Marker + "meta" + Marker + "def") == "def"
  {
    var t := Marker + "meta" + Marker + "def";
    assert t[3..7] == "meta";
    NoMarkerWithoutDollar(t, 3, 7);
    StripNoDollar("def");
    StripSpan("meta", "def");
  }

  /** The metadata span in the middle of a reply disappears: "abc$@$meta$@$def" becomes "abcdef". */
  lemma StripExample()
    ensures StripMarkers("abc" + (Marker + "meta" + Marker + "def")) == "abc" + "def"
  {
    var t := "abc" + (Marker + "meta" + Marker + "def");
    assert t[..3] == "abc";
    NoMarkerWithoutDollar(t, 0, 3);
    NoMarkerNoSpan(t, 0, 3);
    StripLeadingSpanExample();
    StripPlain("abc", Marker + "meta" + Marker + "def");
  }

  lemma {:induction false} OccurrencesNone(s: string, c: char)
    requires c !in s
    ensures Occurrences(s, c) == 0
  {
    if |s| > 0 {
      OccurrencesNone(s[1..], c);
    }
  }

  /** Stripping never removes a line terminator, so it never joins two lines. */
  lemma {:induction false} StripKeepsLineTerminators(s: string, c: char)
    requires IsLineTerminator(c)
    ensures Occurrences(StripMarkers(s), c) == Occurrences(s, c)
    decreases |s|
  {
    if |s| > 0 {
      match SpanEnd(s)
      case Some(e) =>
        StripKeepsLineTerminators(s[e..], c);
        assert s == s[..e] + s[e..];
        OccurrencesAppend(s[..e], s[e..], c);
        OccurrencesNone(s[..e], c);
      case None =>
        StripKeepsLineTerminators(s[1..], c);
        assert [s[0]] + StripMarkers(s[1..]) == StripMarkers(s);
        OccurrencesAppend([s[0]], StripMarkers(s[1..]), c);
    }
  }

  /** `BlackBox.chat(text, type)`: the request for the mode is sent through
      `send` (the HTTP exchange; `None` when it throws) and the reply comes
      back through `StripMarkers`, so the strip lemmas apply to it: no longer,
      and with as many line feeds as before. */
  function Chat(text: string, genType: int, send: ChatRequest -> Option<string>): (r: Result<string>)
    ensures r.Err? <==> send(RequestBody(text, genType)).None?
    ensures r.Ok? ==> r.value == StripMarkers(send(RequestBody(text, genType)).value)
    ensures r.Ok? ==> |r.value| <= |send(RequestBody(text, genType)).value|
    ensures r.Ok? ==> Occurrences(r.value, '\n') == Occurrences(send(RequestBody(text, genType)).value, '\n')
  {
    match send(RequestBody(text, genType))
    case None => Err(TypeError("fetch failed"))
    case Some(reply) =>
      StripKeepsLineTerminators(reply, '\n');
      Ok(StripMarkers(reply))
  }

  /** The link of a Markdown image `![alt](link)` that starts at `k`, as the
      regular expression `/!\[.*?\]\((.*?)\)/` reads it: the alt text ends at
      the first `](` and the link at the first `)` after it, both on the same line. */
  function ImageLinkAt(s: string, k: nat): (r: Option<string>)
    ensures r.Some? ==> ')' !in r.value
    ensures r.Some? ==> forall i :: 0 <= i < |r.value| ==> !IsLineTerminator(r.value[i])
  {
    if !OccursAt(s, "![", k) then None
    else
      match LazyUntil(s, "](", k + 2)
      case None => None
      case Some(j) =>
        match LazyUntil(s, ")", j + 2)
        case None => None
        case Some(e) =>
          assert forall i :: j + 2 <= i < e ==> s[i] != ')' by {
            forall i | j + 2 <= i < e
              ensures s[i] != ')'
            {
              assert !OccursAt(s, ")", i);
              assert s[i..i + 1] == [s[i]];
            }
          }
          Some(s[j + 2..e])
  }

  /** The link of the first image in the reply (`markdown.match(regex)[1]`). */
  function ImageLink(s: string, from: nat): (r: Option<string>)
    requires from <= |s|
    ensures r.Some? ==> exists k :: from <= k < |s| && ImageLinkAt(s, k) == r &&
                                    forall j :: from <= j < k ==> ImageLinkAt(s, j).None?
    ensures r.None? ==> forall k :: from <= k < |s| ==> ImageLinkAt(s, k).None?
    decreases |s| - from
  {
    if from == |s| then None
    else if ImageLinkAt(s, from).Some? then ImageLinkAt(s, from)
    else
      var r := ImageLink(s, from + 1);
      ImageLinkShift(s, from, r);
      r
  }

  /** A position without an image does not change which image comes first. */
  lemma ImageLinkShift(s: string, from: nat, r: Option<string>)
    requires from < |s| && ImageLinkAt(s, from).None?
    requires r.Some? ==> exists k :: from + 1 <= k < |s| && ImageLinkAt(s, k) == r &&
                                     forall j :: from + 1 <= j < k ==> ImageLinkAt(s, j).None?
    ensures r.Some? ==> exists k :: from <= k < |s| && ImageLinkAt(s, k) == r &&
                                    forall j :: from <= j < k ==> ImageLinkAt(s, j).None?
  {
    if r.Some? {
      var k :| from + 1 <= k < |s| && ImageLinkAt(s, k) == r &&
               forall j :: from + 1 <= j < k ==> ImageLinkAt(s, j).None?;
      assert forall j :: from <= j < k ==> ImageLinkAt(s, j).None?;
    }
  }

  /** `BlackBox.genImage(reply)`: the first image link, if any, is downloaded
      with `fetch` (false when the download throws). Showing the image catches
      its own errors. */
  function GenImage(reply: string, fetch: string -> bool): (r: Result<()>)
    ensures r.Err? <==> ImageLink(reply, 0).Some? && !fetch(ImageLink(reply, 0).value)
  {
    match ImageLink(reply, 0)
    case None => Ok(())
    case Some(link) => if fetch(link) then Ok(()) else Err(TypeError("fetch failed"))
  }

  /** In the example image reply the alt text ends at position 5. */
  lemma ImageAltExample()
    ensures LazyUntil("![cat](c.png)", "](", 2) == Some(5)
  {
    var s := "![cat](c.png)";
    forall k | 2 <= k < 5
      ensures !OccursAt(s, "](", k) && !IsLineTerminator(s[k])
    {
      assert s[k..k + 2][0] == s[k] != ']';
    }
    assert OccursAt(s, "](", 5);
    LazyUntilReaches(s, "](", 2, 5);
  }

  /** In the example image reply the link ends at position 12. */
  lemma ImageEndExample()
    ensures LazyUntil("![cat](c.png)", ")", 7) == Some(12)
  {
    var s := "![cat](c.png)";
    forall k | 7 <= k < 12
      ensures !OccursAt(s, ")", k) && !IsLineTerminator(s[k])
    {
      assert s[k..k + 1][0] == s[k] != ')';
    }
    assert OccursAt(s, ")", 12);
    LazyUntilReaches(s, ")", 7, 12);
  }

  /** The example image reply yields its link. */
  lemma ImageExample()
    ensures ImageLinkAt("![cat](c.png)", 0) == Some("c.png")
  {
    var s := "![cat](c.png)";
    assert OccursAt(s, "![", 0);
    ImageAltExample();
    ImageEndExample();
    assert s[7..12] == "c.png";
  }

  /** `BlackBox.extractCodeBlocks(markdown)`: one pass over the lines,
      toggling on fence lines and collecting the lines in between. */
  method ExtractCodeBlocks(markdown: string) returns (codeBlocks: seq<string>)
    ensures codeBlocks == CodeBlocks(markdown)
  {
    var lines := Split(markdown, '\n');
    codeBlocks := [];
    var inCodeBlock := false;
    var codeBlock := "";
    ghost var fences: seq<nat> := [];
    for i := 0 to |lines|
      invariant fences == FenceIndices(lines, i)
      invariant Scanned(lines, fences, i, inCodeBlock, codeBlock, codeBlocks)
    {
      var line := lines[i];
      FenceIndicesStep(lines, i);
      if StartsWith(Trim(line), Fence) {
        if inCodeBlock {
          ScanClose(lines, fences, i, codeBlock, codeBlocks);
        } else {
          ScanOpen(lines, fences, i, codeBlocks);
        }
        fences := fences + [i];
        inCodeBlock := !inCodeBlock;
        if !inCodeBlock {
          codeBlocks := codeBlocks + [Trim(codeBlock)];
          codeBlock := "";
        }
      } else if inCodeBlock {
        ScanInside(lines, fences, i, codeBlock, codeBlocks);
        codeBlock := codeBlock + line + "\n";
      }
    }
    ScannedAll(lines, fences, inCodeBlock, codeBlock, codeBlocks);
  }

  /** One entry of the parsed reply: an object, with its `name` and its
      `code` when they are strings and `None` for anything else (`undefined`
      included), or `null`. */
  datatype FileRecord =
    | Entry(name: Option<string>, code: Option<string>)
    | Null

  /** The entry's name as the path concatenation spells it; a `null` entry
      throws before its name is used. */
  function Name(rec: FileRecord): string
  {
    match rec
    case Entry(name, _) => Str(name)
    case Null => "null"
  }

  /** The entry's code when it is a string. */
  function Code(rec: FileRecord): (c: Option<string>)
    ensures rec.Null? ==> c.None?
  {
    match rec
    case Entry(_, code) => code
    case Null => None
  }

  /** Where the files go: `outDir + "/tmp/"`. */
  function RootDir(outDir: string): string
  {
    outDir + "/tmp/"
  }

  /** The directory the files go to, as the operating system names it. */
  function TmpDir(outDir: string): string
  {
    Canon(RootDir(outDir))
  }

  /** The directory made for an entry: `dirname(rootDir + "/" + name)`. */
  function BaseDir(rootDir: string, name: string): string
  {
    DirName(rootDir + "/" + name)
  }

  /** The path an entry is written to: its directory followed directly by its name. */
  function Target(rootDir: string, name: string): string
  {
    BaseDir(rootDir, name) + name
  }

  /** The directory an entry needs, as the operating system names it. */
  function EntryDir(rootDir: string, rec: FileRecord): string
  {
    Canon(BaseDir(rootDir, Name(rec)))
  }

  /** The file an entry writes, as the operating system names it. */
  function EntryTarget(rootDir: string, rec: FileRecord): string
  {
    Canon(Target(rootDir, Name(rec)))
  }

  /** Where the reply itself is saved. */
  function SourcePath(outDir: string): string
  {
    Canon(RootDir(outDir) + "SOURCE.md")
  }

  /** A name without directories. */
  predicate PlainName(name: string)
  {
    name != [] && '/' !in name
  }

  /** `<outDir>/tmp/` names the directory `tmp` inside `outDir`. */
  lemma TmpDirShape(outDir: string)
    ensures TmpDir(outDir) == Collapse(outDir + "/") + "tmp"
  {
    var t := "tmp";
    NoSlashClean(t);
    assert t != [] && t[0] != '/' && t[|t| - 1] != '/';
    assert RootDir(outDir) == (outDir + "/") + t + "/";
    CanonDir(outDir + "/", t);
  }

  /** A clean relative path after `tmp/` or `tmp//` reads as one path below `tmp`. */
  lemma TmpTail(w: string)
    requires w != [] && w[0] != '/' && NoDoubleSlash(w)
    ensures Collapse("tmp" + "/" + w) == "tmp" + "/" + w
    ensures Collapse("tmp" + "//" + w) == "tmp" + "/" + w
  {
    var t := "tmp";
    NoSlashClean(t);
    assert t != [] && t[|t| - 1] != '/';
    JoinClean(t, w);
  }

  /** A clean relative path under the root directory names a file inside
      `TmpDir`. */
  lemma CanonUnderRoot(outDir: string, w: string)
    requires w != [] && w[0] != '/' && w[|w| - 1] != '/' && NoDoubleSlash(w)
    ensures Canon(RootDir(outDir) + w) == TmpDir(outDir) + "/" + w
  {
    var x := outDir + "/";
    var a := "tmp" + "/" + w;
    assert a[|a| - 1] == w[|w| - 1];
    calc {
      Canon(RootDir(outDir) + w);
      { assert RootDir(outDir) + w == x + a; }
      Canon(x + a);
      { CanonJoin(x, a); }
      Collapse(x) + Collapse(a);
      { TmpTail(w); }
      Collapse(x) + a;
      { TmpDirShape(outDir); }
      TmpDir(outDir) + "/" + w;
    }
  }

  /** The same path with an extra slash in front of it names the same file. */
  lemma CanonUnderRootSlash(outDir: string, w: string)
    requires w != [] && w[0] != '/' && w[|w| - 1] != '/' && NoDoubleSlash(w)
    ensures Canon(RootDir(outDir) + "/" + w) == TmpDir(outDir) + "/" + w
  {
    var x := outDir + "/";
    var b := "tmp" + "//" + w;
    assert b[|b| - 1] == w[|w| - 1];
    calc {
      Canon(RootDir(outDir) + "/" + w);
      { assert RootDir(outDir) + "/" + w == x + b; }
      Canon(x + b);
      { CanonJoin(x, b); }
      Collapse(x) + Collapse(b);
      { TmpTail(w); }
      Collapse(x) + ("tmp" + "/" + w);
      { TmpDirShape(outDir); }
      TmpDir(outDir) + "/" + w;
    }
  }

  /** A plain name lands directly in the root directory. */
  lemma PlainTarget(outDir: string, name: string)
    requires PlainName(name)
    ensures BaseDir(RootDir(outDir), name) == RootDir(outDir)
    ensures Target(RootDir(outDir), name) == RootDir(outDir) + name
    ensures Canon(BaseDir(RootDir(outDir), name)) == TmpDir(outDir)
    ensures Canon(Target(RootDir(outDir), name)) == TmpDir(outDir) + "/" + name
    ensures DirName(TmpDir(outDir) + "/" + name) == TmpDir(outDir)
  {
    DirNameOfChild(RootDir(outDir), name);
    NoSlashClean(name);
    CanonUnderRoot(outDir, name);
    CanonUnderRootSlash(outDir, name);
    TmpDirShape(outDir);
    DirNameOfChild(TmpDir(outDir), name);
  }

  /** A name with a directory repeats that directory: `src/a.ts` is written
      to `<outDir>/tmp//srcsrc/a.ts`. */
  lemma NestedTargetExample()
    ensures Target(RootDir("/o"), "src/a.ts") == "/o/tmp//srcsrc/a.ts"
  {
    assert RootDir("/o") + "/" + "src/a.ts" == "/o/tmp//src" + "/" + "a.ts";
    DirNameOfChild("/o/tmp//src", "a.ts");
  }

  /** The disk as the writer sees it, and whether nothing has thrown yet. */
  datatype Progress = Progress(files: map<string, string>, dirs: set<string>, writes: seq<Write>, ok: bool)

  /** One turn of the loop: make the entry's directory unless it exists,
      then write its code to its target. A `null` entry, a directory that
      cannot be made, a write that fails, or a code that is not a string
      throws and ends the run. */
  function WriteRecord(p: Progress, rec: FileRecord, rootDir: string, denied: set<string>): (r: Progress)
    ensures !p.ok ==> r == p
    ensures r.ok ==> p.ok && Code(rec).Some?
    ensures p.dirs <= r.dirs && p.writes <= r.writes && |r.writes| <= |p.writes| + 1
  {
    if !p.ok then p
    else if rec.Null? then p.(ok := false)
    else
      var base := EntryDir(rootDir, rec);
      var p1 :=
        if base in p.files || base in p.dirs then p
        else if !CanMakeDirs(base, p.files, denied) then p.(ok := false)
        else p.(dirs := p.dirs + Ancestors(base));
      if !p1.ok then p1
      else
        match rec.code
        case None => p1.(ok := false)
        case Some(code) =>
          var target := EntryTarget(rootDir, rec);
          if !FileWritable(Target(rootDir, Name(rec)), p1.dirs, denied) then p1.(ok := false)
          else p1.(files := p1.files[target := code], writes := p1.writes + [Write(target, code)])
  }

  /** The directories after an entry's `mkdir`, when it succeeds. */
  function DirsFor(p: Progress, rec: FileRecord, rootDir: string): set<string>
  {
    var base := EntryDir(rootDir, rec);
    if base in p.files || base in p.dirs then p.dirs else p.dirs + Ancestors(base)
  }

  /** One turn succeeds exactly when its directory exists or can be made,
      its code is a string, and its target can be written once the
      directory is there; it then writes that code to that target and
      nothing else. It creates no directory but the entry's own and those
      on the way to it. */
  lemma WriteRecordEffect(p: Progress, rec: FileRecord, rootDir: string, denied: set<string>)
    ensures var r := WriteRecord(p, rec, rootDir, denied);
      var base := EntryDir(rootDir, rec);
      var target := EntryTarget(rootDir, rec);
      && (r.ok <==> p.ok && Code(rec).Some? && (base in p.files || base in p.dirs || CanMakeDirs(base, p.files, denied)) &&
                    FileWritable(Target(rootDir, Name(rec)), DirsFor(p, rec, rootDir), denied))
      && (r.ok ==> r.writes == p.writes + [Write(target, Code(rec).value)] && r.files == p.files[target := Code(rec).value] &&
                   r.dirs == DirsFor(p, rec, rootDir))
      && (!r.ok ==> r.writes == p.writes && r.files == p.files)
      && p.dirs <= r.dirs <= p.dirs + Ancestors(base)
      && (rec.Null? ==> r == p.(ok := false))
  {
  }

  /** What one turn writes, and that a turn that throws writes nothing. */
  lemma WriteRecordWrites(p: Progress, rec: FileRecord, rootDir: string, denied: set<string>)
    ensures var r := WriteRecord(p, rec, rootDir, denied);
      var target := EntryTarget(rootDir, rec);
      && (r.ok ==> Code(rec).Some? && r.writes == p.writes + [Write(target, Code(rec).value)] && r.files == p.files[target := Code(rec).value])
      && (!r.ok ==> r.writes == p.writes && r.files == p.files)
  {
  }

  /** A turn that succeeds leaves its entry finished and removes no file. */
  lemma WriteRecordDone(p: Progress, rec: FileRecord, rootDir: string, denied: set<string>)
    ensures var r := WriteRecord(p, rec, rootDir, denied);
      r.ok ==> EntryDone(r, rec, rootDir, denied) && p.files.Keys <= r.files.Keys
  {
    var base := EntryDir(rootDir, rec);
    assert base != [] ==> base in Ancestors(base);
  }

  /** The loop over the entries, in order. */
  function WriteRecords(recs: seq<FileRecord>, rootDir: string, p0: Progress, denied: set<string>): (r: Progress)
    ensures r.ok ==> p0.ok
    ensures p0.dirs <= r.dirs && p0.writes <= r.writes
    decreases |recs|
  {
    if recs == [] then p0
    else WriteRecord(WriteRecords(recs[..|recs| - 1], rootDir, p0, denied), recs[|recs| - 1], rootDir, denied)
  }

  /** `JSON.parse(String(blocks))`: `parse` reads the entries of a JSON
      array (`None` when the text is not JSON or not an array); the empty
      text is never JSON. */
  function ParseFiles(text: string, parse: string -> Option<seq<FileRecord>>): Option<seq<FileRecord>>
  {
    if text == "" then None else parse(text)
  }

  /** The final write of the whole reply to `SOURCE.md`. */
  function WriteSource(p: Progress, markdown: string, outDir: string, denied: set<string>): (r: Progress)
    ensures r.ok <==> p.ok && Writable(SourcePath(outDir), p.dirs, denied)
    ensures r.dirs == p.dirs
    ensures r.ok ==> r.writes == p.writes + [Write(SourcePath(outDir), markdown)] && r.files == p.files[SourcePath(outDir) := markdown]
    ensures !r.ok ==> r.writes == p.writes && r.files == p.files
  {
    var path := SourcePath(outDir);
    if !p.ok then p
    else if !Writable(path, p.dirs, denied) then p.(ok := false)
    else p.(files := p.files[path := markdown], writes := p.writes + [Write(path, markdown)])
  }

  /** What `extractFilesFromMarkdown(markdown, outDir)` does to the disk:
      the blocks, joined with commas, are parsed as one JSON array; each
      entry is written; then the reply itself. */
  function Materialize(markdown: string, outDir: string, parse: string -> Option<seq<FileRecord>>, p0: Progress, denied: set<string>): (r: Progress)
    ensures ParseFiles(Join(CodeBlocks(markdown), ","), parse).None? ==> r == p0.(ok := false)
    ensures r.ok ==> p0.ok
    ensures p0.dirs <= r.dirs && p0.writes <= r.writes
  {
    match ParseFiles(Join(CodeBlocks(markdown), ","), parse)
    case None => p0.(ok := false)
    case Some(recs) => WriteSource(WriteRecords(recs, RootDir(outDir), p0, denied), markdown, outDir, denied)
  }

  /** Once a turn has thrown, the remaining entries change nothing. */
  lemma {:induction false} AbortedStays(recs: seq<FileRecord>, n: nat, rootDir: string, p0: Progress, denied: set<string>)
    requires n <= |recs|
    requires !WriteRecords(recs[..n], rootDir, p0, denied).ok
    ensures WriteRecords(recs, rootDir, p0, denied) == WriteRecords(recs[..n], rootDir, p0, denied)
    decreases |recs|
  {
    if n < |recs| {
      var init := recs[..|recs| - 1];
      assert init[..n] == recs[..n];
      AbortedStays(init, n, rootDir, p0, denied);
    } else {
      assert recs[..n] == recs;
    }
  }

  /** `w` puts the code of one of the entries at that entry's target. */
  predicate FromEntries(w: Write, recs: seq<FileRecord>, rootDir: string)
  {
    exists j :: 0 <= j < |recs| && Code(recs[j]).Some? && w == Write(EntryTarget(rootDir, recs[j]), Code(recs[j]).value)
  }

  /** One turn of `WritesFromEntries`: the writes so far come from the
      earlier entries, and the turn adds nothing or the last entry's write. */
  lemma FromEntriesStep(recs: seq<FileRecord>, qw: seq<Write>, pw: seq<Write>, n0: nat, rootDir: string)
    requires recs != []
    requires forall k :: n0 <= k < |qw| ==> FromEntries(qw[k], recs[..|recs| - 1], rootDir)
    requires pw == qw || (Code(recs[|recs| - 1]).Some? &&
      pw == qw + [Write(EntryTarget(rootDir, recs[|recs| - 1]), Code(recs[|recs| - 1]).value)])
    ensures forall k :: n0 <= k < |pw| ==> FromEntries(pw[k], recs, rootDir)
  {
    var init := recs[..|recs| - 1];
    forall k | n0 <= k < |pw|
      ensures FromEntries(pw[k], recs, rootDir)
    {
      if k < |qw| {
        assert pw[k] == qw[k];
        var j :| 0 <= j < |init| && Code(init[j]).Some? && qw[k] == Write(EntryTarget(rootDir, init[j]), Code(init[j]).value);
        assert recs[j] == init[j];
      } else {
        var j := |recs| - 1;
        assert pw[k] == Write(EntryTarget(rootDir, recs[j]), Code(recs[j]).value);
      }
    }
  }

  /** Every write the loop adds puts an entry's code at that entry's target. */
  lemma {:induction false} WritesFromEntries(recs: seq<FileRecord>, rootDir: string, p0: Progress, denied: set<string>)
    ensures forall k :: |p0.writes| <= k < |WriteRecords(recs, rootDir, p0, denied).writes| ==>
      FromEntries(WriteRecords(recs, rootDir, p0, denied).writes[k], recs, rootDir)
    decreases |recs|
  {
    if recs != [] {
      var init := recs[..|recs| - 1];
      var last := recs[|recs| - 1];
      WritesFromEntries(init, rootDir, p0, denied);
      var q := WriteRecords(init, rootDir, p0, denied);
      assert forall k :: |p0.writes| <= k < |q.writes| ==> FromEntries(q.writes[k], init, rootDir);
      var p := WriteRecords(recs, rootDir, p0, denied);
      assert p == WriteRecord(q, last, rootDir, denied);
      WriteRecordWrites(q, last, rootDir, denied);
      FromEntriesStep(recs, q.writes, p.writes, |p0.writes|, rootDir);
    }
  }

  /** The writes from position `n0` on are the entries' codes at their
      targets, one per entry, in order. */
  predicate WritesEach(ws: seq<Write>, n0: nat, recs: seq<FileRecord>, rootDir: string)
  {
    |ws| == n0 + |recs| &&
    forall k :: 0 <= k < |recs| ==>
      Code(recs[k]).Some? && ws[n0 + k] == Write(EntryTarget(rootDir, recs[k]), Code(recs[k]).value)
  }

  /** One more entry written after the earlier ones, in order. */
  lemma WritesStep(recs: seq<FileRecord>, qw: seq<Write>, pw: seq<Write>, n0: nat, rootDir: string)
    requires recs != [] && WritesEach(qw, n0, recs[..|recs| - 1], rootDir)
    requires Code(recs[|recs| - 1]).Some? && pw == qw + [Write(EntryTarget(rootDir, recs[|recs| - 1]), Code(recs[|recs| - 1]).value)]
    ensures WritesEach(pw, n0, recs, rootDir)
  {
    var init := recs[..|recs| - 1];
    forall k | 0 <= k < |recs|
      ensures Code(recs[k]).Some? && pw[n0 + k] == Write(EntryTarget(rootDir, recs[k]), Code(recs[k]).value)
    {
      if k < |init| {
        assert recs[k] == init[k];
        assert pw[n0 + k] == qw[n0 + k];
      }
    }
  }

  /** A run that completes writes every entry, in order, once each. */
  lemma {:induction false} CompletedRunWritesEach(recs: seq<FileRecord>, rootDir: string, p0: Progress, denied: set<string>)
    ensures WriteRecords(recs, rootDir, p0, denied).ok ==> WritesEach(WriteRecords(recs, rootDir, p0, denied).writes, |p0.writes|, recs, rootDir)
    decreases |recs|
  {
    if recs != [] {
      var init := recs[..|recs| - 1];
      CompletedRunWritesEach(init, rootDir, p0, denied);
      var q := WriteRecords(init, rootDir, p0, denied);
      var last := recs[|recs| - 1];
      assert WriteRecords(recs, rootDir, p0, denied) == WriteRecord(q, last, rootDir, denied);
      var p := WriteRecord(q, last, rootDir, denied);
      WriteRecordWrites(q, last, rootDir, denied);
      if p.ok {
        assert q.ok;
        WritesStep(recs, q.writes, p.writes, |p0.writes|, rootDir);
      }
    }
  }

  /** An entry with a plain name and string code. */
  predicate PlainEntry(r: FileRecord)
  {
    r.Entry? && r.name.Some? && PlainName(r.name.value) && r.code.Some?
  }

  /** One plain entry, with `<outDir>/tmp` present or makeable and a free
      target, is written straight into `<outDir>/tmp`. */
  lemma PlainStep(q: Progress, rec: FileRecord, outDir: string, denied: set<string>)
    requires q.ok && PlainEntry(rec)
    requires TmpDir(outDir) in q.dirs || CanMakeDirs(TmpDir(outDir), q.files, denied)
    requires TmpDir(outDir) + "/" + Name(rec) !in denied && TmpDir(outDir) + "/" + Name(rec) !in q.dirs
    ensures var p := WriteRecord(q, rec, RootDir(outDir), denied);
      p.ok && TmpDir(outDir) in p.dirs && p.dirs <= q.dirs + Ancestors(TmpDir(outDir))
  {
    var rootDir := RootDir(outDir);
    var tmp := TmpDir(outDir);
    var name := Name(rec);
    PlainTarget(outDir, name);
    assert EntryDir(rootDir, rec) == tmp;
    var target := tmp + "/" + name;
    assert EntryTarget(rootDir, rec) == target;
    assert tmp in Ancestors(tmp);
    assert target !in Ancestors(tmp);
    assert tmp in DirsFor(q, rec, rootDir);
    WriteRecordEffect(q, rec, rootDir, denied);
  }

  /** The run over plain entries with free targets completes, making no
      directory but `<outDir>/tmp` and those on the way to it. */
  lemma {:induction false} PlainNamesRun(recs: seq<FileRecord>, outDir: string, p0: Progress, denied: set<string>)
    requires p0.ok
    requires TmpDir(outDir) in p0.dirs || CanMakeDirs(TmpDir(outDir), p0.files, denied)
    requires forall r :: r in recs ==> PlainEntry(r)
    requires forall r :: r in recs ==> TmpDir(outDir) + "/" + Name(r) !in denied && TmpDir(outDir) + "/" + Name(r) !in p0.dirs
    ensures WriteRecords(recs, RootDir(outDir), p0, denied).ok
    ensures WriteRecords(recs, RootDir(outDir), p0, denied).dirs <= p0.dirs + Ancestors(TmpDir(outDir))
    ensures recs != [] ==> TmpDir(outDir) in WriteRecords(recs, RootDir(outDir), p0, denied).dirs
    decreases |recs|
  {
    if recs != [] {
      var init := recs[..|recs| - 1];
      var last := recs[|recs| - 1];
      assert forall r :: r in init ==> r in recs;
      PlainNamesRun(init, outDir, p0, denied);
      var q := WriteRecords(init, RootDir(outDir), p0, denied);
      assert last in recs;
      var target := TmpDir(outDir) + "/" + Name(last);
      assert |target| > |TmpDir(outDir)|;
      assert target !in Ancestors(TmpDir(outDir));
      PlainStep(q, last, outDir, denied);
      assert WriteRecords(recs, RootDir(outDir), p0, denied) == WriteRecord(q, last, RootDir(outDir), denied);
    }
  }

  /** Entries with plain names and string code, whose targets are neither
      refused nor directories, are all written, in order, straight into
      `<outDir>/tmp`, provided that directory exists or can be made. */
  lemma PlainNamesComplete(recs: seq<FileRecord>, outDir: string, p0: Progress, denied: set<string>)
    requires p0.ok
    requires TmpDir(outDir) in p0.dirs || CanMakeDirs(TmpDir(outDir), p0.files, denied)
    requires forall r :: r in recs ==> r.Entry? && r.name.Some? && PlainName(r.name.value) && r.code.Some?
    requires forall r :: r in recs ==> TmpDir(outDir) + "/" + r.name.value !in denied && TmpDir(outDir) + "/" + r.name.value !in p0.dirs
    ensures var p := WriteRecords(recs, RootDir(outDir), p0, denied);
      p.ok && p.dirs <= p0.dirs + Ancestors(TmpDir(outDir)) && (recs != [] ==> TmpDir(outDir) in p.dirs) &&
      |p.writes| == |p0.writes| + |recs| &&
      forall k :: 0 <= k < |recs| ==> p.writes[|p0.writes| + k] == Write(TmpDir(outDir) + "/" + recs[k].name.value, recs[k].code.value)
  {
    var rootDir := RootDir(outDir);
    PlainNamesRun(recs, outDir, p0, denied);
    CompletedRunWritesEach(recs, rootDir, p0, denied);
    var p := WriteRecords(recs, rootDir, p0, denied);
    forall k | 0 <= k < |recs|
      ensures p.writes[|p0.writes| + k] == Write(TmpDir(outDir) + "/" + recs[k].name.value, recs[k].code.value)
    {
      assert recs[k] in recs;
      PlainTarget(outDir, recs[k].name.value);
    }
  }

  /** For a name `d/f`, the directory made is `<outDir>/tmp/d`. */
  lemma NestedDir(outDir: string, d: string, f: string)
    requires PlainName(d) && PlainName(f)
    ensures BaseDir(RootDir(outDir), d + "/" + f) == RootDir(outDir) + "/" + d
    ensures Canon(BaseDir(RootDir(outDir), d + "/" + f)) == TmpDir(outDir) + "/" + d
  {
    var rootDir := RootDir(outDir);
    assert rootDir + "/" + (d + "/" + f) == (rootDir + "/" + d) + "/" + f;
    DirNameOfChild(rootDir + "/" + d, f);
    NoSlashClean(d);
    CanonUnderRootSlash(outDir, d);
  }

  /** For a name `d/f`, the file written is `f` inside `<outDir>/tmp/dd`. */
  lemma NestedFileDir(outDir: string, d: string, f: string)
    requires PlainName(d) && PlainName(f)
    ensures DirName(Canon(Target(RootDir(outDir), d + "/" + f))) == TmpDir(outDir) + "/" + d + d
  {
    var rootDir := RootDir(outDir);
    NestedDir(outDir, d, f);
    var w := d + d + "/" + f;
    assert '/' !in d + d;
    NoSlashClean(d + d);
    NoSlashClean(f);
    NoDoubleSlashAppend("/", f);
    NoDoubleSlashAppend(d + d, "/" + f);
    assert w == (d + d) + ("/" + f);
    assert Target(rootDir, d + "/" + f) == rootDir + "/" + w;
    CanonUnderRootSlash(outDir, w);
    var parent := TmpDir(outDir) + "/" + d + d;
    assert TmpDir(outDir) + "/" + w == parent + "/" + f;
    DirNameOfChild(parent, f);
  }

  /** A name inside a directory, `d/f`, makes `<outDir>/tmp/d` but is
      written into `<outDir>/tmp/dd`; unless that directory is already there
      the entry throws and writes nothing. */
  lemma NestedNameThrows(p: Progress, outDir: string, d: string, f: string, code: string, denied: set<string>)
    requires p.ok && PlainName(d) && PlainName(f)
    requires TmpDir(outDir) + "/" + d + d !in p.dirs
    ensures var r := WriteRecord(p, Entry(Some(d + "/" + f), Some(code)), RootDir(outDir), denied);
      !r.ok && r.writes == p.writes && r.files == p.files
  {
    var rootDir := RootDir(outDir);
    var rec := Entry(Some(d + "/" + f), Some(code));
    assert !Writable(EntryTarget(rootDir, rec), DirsFor(p, rec, rootDir), denied) by {
      NestedDir(outDir, d, f);
      NestedFileDir(outDir, d, f);
      var base := TmpDir(outDir) + "/" + d;
      var parent := TmpDir(outDir) + "/" + d + d;
      assert EntryDir(rootDir, rec) == base;
      assert DirName(EntryTarget(rootDir, rec)) == parent;
      assert parent !in Ancestors(base);
      assert parent !in DirsFor(p, rec, rootDir);
    }
    WriteRecordEffect(p, rec, rootDir, denied);
  }

  /** A name ending in a slash throws: its target ends in that slash, and
      `writeFileSync` never writes a file there. */
  lemma SlashNameThrows(p: Progress, rootDir: string, name: string, code: string, denied: set<string>)
    requires EndsInSlash(name)
    ensures var r := WriteRecord(p, Entry(Some(name), Some(code)), rootDir, denied);
      !r.ok && r.writes == p.writes && r.files == p.files
  {
    var rec := Entry(Some(name), Some(code));
    var t := Target(rootDir, name);
    assert t[|t| - 1] == name[|name| - 1];
    WriteRecordEffect(p, rec, rootDir, denied);
  }

  /** `a/` under `/o/tmp/` throws where reading the path without its slash
      would have written the file `/o/tmp/a`. */
  lemma SlashNameExample()
    ensures var p := Progress(map[], {"/o", "/o/tmp"}, [], true);
      var r := WriteRecord(p, Entry(Some("a/"), Some("x")), RootDir("/o"), {});
      !r.ok && r.writes == []
  {
    var p := Progress(map[], {"/o", "/o/tmp"}, [], true);
    SlashNameThrows(p, RootDir("/o"), "a/", "x", {});
  }

  /** A reply without a fence line writes nothing, not even `SOURCE.md`. */
  lemma NoFenceWritesNothing(markdown: string, outDir: string, parse: string -> Option<seq<FileRecord>>, p0: Progress, denied: set<string>)
    requires forall line :: line in Split(markdown, '\n') ==> !IsFence(line)
    ensures Materialize(markdown, outDir, parse, p0, denied) == p0.(ok := false)
  {
    NoFenceNoBlocks(markdown);
  }

  /** `SOURCE.md` is saved in `<outDir>/tmp`. */
  lemma SourcePathShape(outDir: string)
    ensures SourcePath(outDir) == TmpDir(outDir) + "/SOURCE.md"
    ensures DirName(SourcePath(outDir)) == TmpDir(outDir)
  {
    NoSlashClean("SOURCE.md");
    CanonUnderRoot(outDir, "SOURCE.md");
    TmpDirShape(outDir);
    DirNameOfChild(TmpDir(outDir), "SOURCE.md");
  }

  /** An empty list of files makes no directory, so the reply can only be
      saved into a `<outDir>/tmp` that is already there. */
  lemma SourceNeedsTmp(markdown: string, outDir: string, parse: string -> Option<seq<FileRecord>>, p0: Progress, denied: set<string>)
    requires ParseFiles(Join(CodeBlocks(markdown), ","), parse) == Some([])
    requires TmpDir(outDir) !in p0.dirs
    ensures var p := Materialize(markdown, outDir, parse, p0, denied);
      !p.ok && p.writes == p0.writes && p.files == p0.files
  {
    SourcePathShape(outDir);
  }

  /** A run that completes ends by saving the reply itself as `SOURCE.md`. */
  lemma SourceWrittenLast(markdown: string, outDir: string, parse: string -> Option<seq<FileRecord>>, p0: Progress, denied: set<string>)
    requires Materialize(markdown, outDir, parse, p0, denied).ok
    ensures var p := Materialize(markdown, outDir, parse, p0, denied);
      |p.writes| > |p0.writes| && p.writes[|p.writes| - 1] == Write(TmpDir(outDir) + "/SOURCE.md", markdown)
  {
    SourcePathShape(outDir);
  }

  /** No path is both a file and a directory. */
  predicate Disjoint(p: Progress)
  {
    forall q :: q in p.files ==> q !in p.dirs
  }

  /** One turn never makes a path both a file and a directory. */
  lemma DisjointStep(p: Progress, rec: FileRecord, rootDir: string, denied: set<string>)
    requires Disjoint(p)
    ensures Disjoint(WriteRecord(p, rec, rootDir, denied))
  {
    WriteRecordEffect(p, rec, rootDir, denied);
    var r := WriteRecord(p, rec, rootDir, denied);
    var base := EntryDir(rootDir, rec);
    if p.ok && !(base in p.files || base in p.dirs) && CanMakeDirs(base, p.files, denied) {
      assert forall q :: q in p.files ==> q !in Ancestors(base);
    }
  }

  /** The writer never makes a path both a file and a directory. */
  lemma {:induction false} DisjointKept(recs: seq<FileRecord>, rootDir: string, p0: Progress, denied: set<string>)
    requires Disjoint(p0)
    ensures Disjoint(WriteRecords(recs, rootDir, p0, denied))
    decreases |recs|
  {
    if recs != [] {
      DisjointKept(recs[..|recs| - 1], rootDir, p0, denied);
      DisjointStep(WriteRecords(recs[..|recs| - 1], rootDir, p0, denied), recs[|recs| - 1], rootDir, denied);
    }
  }

  /** One more write keeps the files equal to the writes applied. */
  lemma FilesStep(files0: map<string, string>, qf: map<string, string>, qw: seq<Write>, pf: map<string, string>, pw: seq<Write>,
                  n0: nat, w: Write)
    requires n0 <= |qw| && qf == ApplyWrites(files0, qw[n0..])
    requires pw == qw + [w] && pf == qf[w.path := w.data]
    ensures pf == ApplyWrites(files0, pw[n0..])
  {
    var ws := pw[n0..];
    assert ws[..|ws| - 1] == qw[n0..];
    assert ws[|ws| - 1] == w;
  }

  /** The files the loop leaves are the initial files with its writes applied. */
  lemma {:induction false} FilesFollowWrites(recs: seq<FileRecord>, rootDir: string, p0: Progress, denied: set<string>)
    ensures var p := WriteRecords(recs, rootDir, p0, denied);
      p.files == ApplyWrites(p0.files, p.writes[|p0.writes|..])
    decreases |recs|
  {
    var p := WriteRecords(recs, rootDir, p0, denied);
    if recs != [] {
      var init := recs[..|recs| - 1];
      var last := recs[|recs| - 1];
      FilesFollowWrites(init, rootDir, p0, denied);
      var q := WriteRecords(init, rootDir, p0, denied);
      assert p == WriteRecord(q, last, rootDir, denied);
      WriteRecordWrites(q, last, rootDir, denied);
      if p.ok {
        FilesStep(p0.files, q.files, q.writes, p.files, p.writes, |p0.writes|, Write(EntryTarget(rootDir, last), Code(last).value));
      }
    } else {
      assert p.writes[|p0.writes|..] == [];
    }
  }

  /** The state of an entry after a run that completed: its code was a
      string, its directory is there, its file exists and may be written. */
  predicate EntryDone(p: Progress, rec: FileRecord, rootDir: string, denied: set<string>)
  {
    var base := EntryDir(rootDir, rec);
    var target := EntryTarget(rootDir, rec);
    && Code(rec).Some? && !EndsInSlash(Target(rootDir, Name(rec)))
    && (base in p.files || base in p.dirs)
    && target in p.files && target !in denied && DirName(target) in p.dirs
  }

  /** A finished entry stays finished while files and directories are only added. */
  lemma EntryDoneGrows(q: Progress, p: Progress, rec: FileRecord, rootDir: string, denied: set<string>)
    requires EntryDone(q, rec, rootDir, denied)
    requires q.files.Keys <= p.files.Keys && q.dirs <= p.dirs
    ensures EntryDone(p, rec, rootDir, denied)
  {
  }

  /** Finished entries stay finished across a step that finishes one more. */
  lemma AllDoneStep(recs: seq<FileRecord>, q: Progress, p: Progress, rootDir: string, denied: set<string>)
    requires recs != []
    requires forall k :: 0 <= k < |recs| - 1 ==> EntryDone(q, recs[k], rootDir, denied)
    requires EntryDone(p, recs[|recs| - 1], rootDir, denied)
    requires q.files.Keys <= p.files.Keys && q.dirs <= p.dirs
    ensures forall k :: 0 <= k < |recs| ==> EntryDone(p, recs[k], rootDir, denied)
  {
    forall k | 0 <= k < |recs| - 1
      ensures EntryDone(p, recs[k], rootDir, denied)
    {
      EntryDoneGrows(q, p, recs[k], rootDir, denied);
    }
  }

  /** A turn that succeeds finishes its entry and keeps the earlier ones finished. */
  lemma DoneStep(init: seq<FileRecord>, last: FileRecord, q: Progress, rootDir: string, denied: set<string>)
    requires q.ok ==> forall k :: 0 <= k < |init| ==> EntryDone(q, init[k], rootDir, denied)
    ensures var p := WriteRecord(q, last, rootDir, denied);
      p.ok ==> forall k :: 0 <= k < |init| + 1 ==> EntryDone(p, (init + [last])[k], rootDir, denied)
  {
    var p := WriteRecord(q, last, rootDir, denied);
    if p.ok {
      WriteRecordDone(q, last, rootDir, denied);
      var recs := init + [last];
      assert forall k :: 0 <= k < |init| ==> recs[k] == init[k];
      AllDoneStep(recs, q, p, rootDir, denied);
    }
  }

  /** After a run that completed, every entry is finished. */
  lemma {:induction false} CompletedRunFacts(recs: seq<FileRecord>, rootDir: string, p0: Progress, denied: set<string>)
    ensures var p := WriteRecords(recs, rootDir, p0, denied);
      p.ok ==> forall k :: 0 <= k < |recs| ==> EntryDone(p, recs[k], rootDir, denied)
    decreases |recs|
  {
    if recs != [] {
      var init := recs[..|recs| - 1];
      var last := recs[|recs| - 1];
      CompletedRunFacts(init, rootDir, p0, denied);
      var q := WriteRecords(init, rootDir, p0, denied);
      assert WriteRecords(recs, rootDir, p0, denied) == WriteRecord(q, last, rootDir, denied);
      assert recs == init + [last];
      DoneStep(init, last, q, rootDir, denied);
    }
  }

  /** Replaying finished entries makes no new file and no new directory. */
  lemma {:induction false} ReplayKeeps(recs: seq<FileRecord>, n: nat, rootDir: string, p1: Progress, denied: set<string>)
    requires n <= |recs| && p1.ok && Disjoint(p1)
    requires forall k :: 0 <= k < |recs| ==> EntryDone(p1, recs[k], rootDir, denied)
    ensures var q := WriteRecords(recs[..n], rootDir, p1, denied);
      q.ok && q.dirs == p1.dirs && q.files.Keys == p1.files.Keys
    decreases n
  {
    if n > 0 {
      ReplayKeeps(recs, n - 1, rootDir, p1, denied);
      var q := WriteRecords(recs[..n - 1], rootDir, p1, denied);
      assert recs[..n][..n - 1] == recs[..n - 1];
      var rec := recs[n - 1];
      assert EntryDone(p1, rec, rootDir, denied);
      WriteRecordEffect(q, rec, rootDir, denied);
      assert EntryTarget(rootDir, rec) in p1.files;
    } else {
      assert recs[..0] == [];
    }
  }

  /** Writing one more file is applying one more write. */
  lemma ApplyOneMore(files: map<string, string>, ws: seq<Write>, w: Write)
    ensures ApplyWrites(files, ws + [w]) == ApplyWrites(files, ws)[w.path := w.data]
  {
    assert (ws + [w])[..|ws|] == ws;
  }

  /** Running the writer again on the same reply, after a run that
      completed, completes again and leaves the same files and directories. */
  lemma MaterializeTwice(markdown: string, outDir: string, parse: string -> Option<seq<FileRecord>>, p0: Progress, denied: set<string>)
    requires Disjoint(p0)
    requires Materialize(markdown, outDir, parse, p0, denied).ok
    ensures var p1 := Materialize(markdown, outDir, parse, p0, denied);
      var p2 := Materialize(markdown, outDir, parse, p1, denied);
      p2.ok && p2.files == p1.files && p2.dirs == p1.dirs
  {
    var rootDir := RootDir(outDir);
    var recs := ParseFiles(Join(CodeBlocks(markdown), ","), parse).value;
    var first := WriteRecords(recs, rootDir, p0, denied);
    var p1 := WriteSource(first, markdown, outDir, denied);
    var src := Write(SourcePath(outDir), markdown);
    CompletedRunFacts(recs, rootDir, p0, denied);
    DisjointKept(recs, rootDir, p0, denied);
    forall k | 0 <= k < |recs|
      ensures EntryDone(p1, recs[k], rootDir, denied)
    {
      EntryDoneGrows(first, p1, recs[k], rootDir, denied);
    }
    ReplayKeeps(recs, |recs|, rootDir, p1, denied);
    assert recs[..|recs|] == recs;
    var second := WriteRecords(recs, rootDir, p1, denied);
    var p2 := WriteSource(second, markdown, outDir, denied);
    assert p2.ok;
    var ws := WritesOfRun(recs, rootDir, p0, p1, denied);
    FilesFollowWrites(recs, rootDir, p0, denied);
    FilesFollowWrites(recs, rootDir, p1, denied);
    ApplyOneMore(p0.files, ws, src);
    ApplyOneMore(p1.files, ws, src);
    RewriteIdempotent(p0.files, ws + [src]);
  }

  /** Two completed runs of the same entries add the same writes. */
  lemma WritesOfRun(recs: seq<FileRecord>, rootDir: string, p0: Progress, p1: Progress, denied: set<string>) returns (ws: seq<Write>)
    requires WriteRecords(recs, rootDir, p0, denied).ok && WriteRecords(recs, rootDir, p1, denied).ok
    ensures ws == WriteRecords(recs, rootDir, p0, denied).writes[|p0.writes|..]
    ensures ws == WriteRecords(recs, rootDir, p1, denied).writes[|p1.writes|..]
  {
    var a := WriteRecords(recs, rootDir, p0, denied);
    var b := WriteRecords(recs, rootDir, p1, denied);
    CompletedRunWritesEach(recs, rootDir, p0, denied);
    CompletedRunWritesEach(recs, rootDir, p1, denied);
    ws := a.writes[|p0.writes|..];
    assert |ws| == |b.writes[|p1.writes|..]|;
    forall k | 0 <= k < |ws|
      ensures ws[k] == b.writes[|p1.writes|..][k]
    {
      var w := Write(EntryTarget(rootDir, recs[k]), Code(recs[k]).value);
      assert a.writes[|p0.writes| + k] == w;
      assert b.writes[|p1.writes| + k] == w;
      assert ws[k] == a.writes[|p0.writes| + k];
      assert b.writes[|p1.writes|..][k] == b.writes[|p1.writes| + k];
    }
  }

  /** One turn of the writer's loop, on the disk. */
  method WriteEntry(rec: FileRecord, rootDir: string, disk: Disk) returns (ok: bool)
    requires disk.Valid()
    modifies disk
    ensures disk.Valid()
    ensures Progress(disk.files, disk.dirs, disk.writes, ok)
         == WriteRecord(Progress(old(disk.files), old(disk.dirs), old(disk.writes), true), rec, rootDir, disk.denied)
  {
    ghost var p := Progress(disk.files, disk.dirs, disk.writes, true);
    if rec.Null? {
      return false;
    }
    var name := Str(rec.name);
    var base := DirName(rootDir + "/" + name);
    ghost var dir := EntryDir(rootDir, rec);
    assert Canon(base) == dir;
    ok := true;
    if !disk.Exists(base) {
      ok := disk.MakeDirs(base);
    }
    ghost var p1 := Progress(disk.files, disk.dirs, disk.writes, ok);
    assert p1 == if dir in p.files || dir in p.dirs then p
                 else if !CanMakeDirs(dir, p.files, disk.denied) then p.(ok := false)
                 else p.(dirs := p.dirs + Ancestors(dir));
    if ok {
      match rec.code
      case None =>
        ok := false;
      case Some(code) =>
        assert base + name == Target(rootDir, Name(rec));
        ok := disk.WriteFile(base + name, code);
    }
  }

  /** The writer's loop over the parsed entries; it stops at the first one that throws. */
  method WriteAll(recs: seq<FileRecord>, rootDir: string, disk: Disk) returns (ok: bool)
    requires disk.Valid()
    modifies disk
    ensures disk.Valid()
    ensures Progress(disk.files, disk.dirs, disk.writes, ok)
         == WriteRecords(recs, rootDir, Progress(old(disk.files), old(disk.dirs), old(disk.writes), true), disk.denied)
  {
    ghost var p0 := Progress(disk.files, disk.dirs, disk.writes, true);
    var i := 0;
    ok := true;
    while i < |recs| && ok
      invariant i <= |recs|
      invariant disk.Valid()
      invariant Progress(disk.files, disk.dirs, disk.writes, ok) == WriteRecords(recs[..i], rootDir, p0, disk.denied)
    {
      assert recs[..i + 1][..i] == recs[..i];
      ok := WriteEntry(recs[i], rootDir, disk);
      i := i + 1;
    }
    if ok {
      assert recs[..i] == recs;
    } else {
      AbortedStays(recs, i, rootDir, p0, disk.denied);
    }
  }

  /** `BlackBox.extractFilesFromMarkdown(markdown, outDir)`: writes the
      files a JSON reply describes under `outDir/tmp/`, then the reply; any
      exception is caught and the result is always the empty list. */
  method ExtractFilesFromMarkdown(markdown: string, outDir: string, parse: string -> Option<seq<FileRecord>>, disk: Disk)
    returns (result: seq<FileRecord>)
    requires disk.Valid()
    modifies disk
    ensures disk.Valid()
    ensures result == []
    ensures var p := Materialize(markdown, outDir, parse, Progress(old(disk.files), old(disk.dirs), old(disk.writes), true), disk.denied);
      disk.files == p.files && disk.dirs == p.dirs && disk.writes == p.writes
  {
    result := [];
    var blocks := ExtractCodeBlocks(markdown);
    var parsed := ParseFiles(Join(blocks, ","), parse);
    if parsed.None? {
      return;
    }
    var rootDir := RootDir(outDir);
    var ok := WriteAll(parsed.value, rootDir, disk);
    if ok {
      var saved := disk.WriteFile(rootDir + "SOURCE.md", markdown);
    }
  }
}

/** The stand-alone extraction script: it reads a Markdown file, takes the
    first fenced block and parses it as JSON. */
module Extract {
  import opened Values
  import opened Fences
  import BlackBox

  /** `JSON.parse(blocks[0])`: with no block the argument is `undefined`,
      which JSON.parse reads as the text "undefined" and rejects. `parse`
      stands for JSON.parse on a string (`None` when the text is not JSON). */
  function ParseFirstBlock<J>(blocks: seq<string>, parse: string -> Option<J>): (r: Result<J>)
    ensures blocks == [] ==> r.Err?
    ensures blocks != [] ==> (r.Ok? <==> parse(blocks[0]).Some?)
    ensures r.Ok? ==> r.value == parse(blocks[0]).value
  {
    if blocks == [] then Err(SyntaxError("\"undefined\" is not valid JSON"))
    else
      match parse(blocks[0])
      case None => Err(SyntaxError("invalid JSON"))
      case Some(v) => Ok(v)
  }

  /** The script on the text of the file it is given: the scanner is the
      same one the chat client runs. */
  method ExtractScript<J>(content: string, parse: string -> Option<J>) returns (r: Result<J>)
    ensures r == ParseFirstBlock(CodeBlocks(content), parse)
  {
    var blocks := BlackBox.ExtractCodeBlocks(content);
    r := ParseFirstBlock(blocks, parse);
  }

  /** A file whose only block is `[1]` parses to whatever `[1]` parses to. */
  lemma ScriptExample<J>(parse: string -> Option<J>)
    requires parse("[1]").Some?
    ensures ParseFirstBlock(CodeBlocks("```json\n[1]\n```"), parse) == Ok(parse("[1]").value)
  {
    OneJsonBlock();
  }

  /** A file without a fence line always fails to parse. */
  lemma NoFenceFails<J>(content: string, parse: string -> Option<J>)
    requires forall line :: line in Text.Split(content, '\n') ==> !IsFence(line)
    ensures ParseFirstBlock(CodeBlocks(content), parse).Err?
  {
    NoFenceNoBlocks(content);
  }
}

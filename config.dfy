/** The prompts the REPL hands to the history and to the chat. */
module Config {
  import opened Text

  /** `prompts.system`: the messages every history starts with. */
  const SystemPrompts: seq<string> := [
    "Always use code blocks with the appropriate language tags",
    "If the answer may have changed since your cut-off date, simply reply with \"I do not have real-time information\" and nothing else"
  ]

  /** `prompts.imagePhrase`. */
  const ImagePhrase: string := "[img]"

  /** `prompts.webBrowsing.forcePhrase`: asks for a web search. */
  const ForcePhrase: string := "[web]"

  /** `prompts.webBrowsing.preFacto(query, result)`: the question in quotes,
      then the search results, then the invitation to use them. */
  function PreFacto(query: string, result: string): string
  {
    PreFactoHead + query + PreFactoMiddle + result + PreFactoTail
  }

  const PreFactoHead: string := "Can you answer \""
  const PreFactoMiddle: string := "\"?\nI also found the following web search results for the same query:\n\n  "
  const PreFactoTail: string := "\n\nIf needed, feel free to augment your response with anything helpful from the above search results too.\n"

  /** The query appears in the prompt, in quotes, right after the opening words. */
  lemma PreFactoHasQuery(query: string, result: string)
    ensures OccursAt(PreFacto(query, result), query, |PreFactoHead|)
  {
    OccursInside(PreFactoHead, query, PreFactoMiddle + result + PreFactoTail, query, 0);
    assert PreFactoHead + query + (PreFactoMiddle + result + PreFactoTail) == PreFacto(query, result);
  }

  /** The search results appear in the prompt, after the question. */
  lemma PreFactoHasResult(query: string, result: string)
    ensures OccursAt(PreFacto(query, result), result, |PreFactoHead + query + PreFactoMiddle|)
  {
    OccursInside(PreFactoHead + query + PreFactoMiddle, result, PreFactoTail, result, 0);
  }
}

/** The conversation log: a list of entries seeded with the system prompts. */
module History {
  import opened Values

  /** The `role` a stored entry answers with: messages are stored with
      `null`, bare strings have no `role` property at all. */
  datatype RoleValue = Null | Undefined

  /** An entry: a message object `{ role: null, content }`, possibly with a
      token count, or a bare string (the combined prompt and reply). */
  datatype Entry =
    | Message(content: Option<string>, numTokens: Option<int>)
    | Bare(text: string)

  /** What `get` returns for an entry: `{ role, content }`. */
  datatype View = View(role: RoleValue, content: Option<string>)

  function ViewOf(e: Entry): (v: View)
    ensures e.Message? ==> v == View(Null, e.content)
    ensures e.Bare? ==> v == View(Undefined, None)
  {
    match e
    case Message(content, _) => View(Null, content)
    case Bare(_) => View(Undefined, None)
  }

  /** `history.map(msg => ({ role: msg.role, content: msg.content }))`. */
  function Views(entries: seq<Entry>): (vs: seq<View>)
    ensures |vs| == |entries|
    ensures forall i :: 0 <= i < |entries| ==> vs[i] == ViewOf(entries[i])
  {
    seq(|entries|, i requires 0 <= i < |entries| => ViewOf(entries[i]))
  }

  /** The entries `clear` leaves: one message per system prompt, in order. */
  function Seeded(system: seq<string>): (es: seq<Entry>)
    ensures |es| == |system|
    ensures forall i :: 0 <= i < |system| ==> es[i] == Message(Some(system[i]), None)
  {
    seq(|system|, i requires 0 <= i < |system| => Message(Some(system[i]), None))
  }

  /** The token count of an entry; a string or a message without a count
      has none (`undefined`). */
  function Tokens(e: Entry): Option<int>
  {
    if e.Message? then e.numTokens else None
  }

  /** `history.map(msg => msg.numTokens).reduce((a, b) => a + b, 0)`, with
      `None` for NaN: one missing count poisons the sum. */
  function TotalTokens(entries: seq<Entry>): (r: Option<int>)
  {
    if entries == [] then Some(0)
    else
      match (TotalTokens(entries[..|entries| - 1]), Tokens(entries[|entries| - 1]))
      case (Some(a), Some(b)) => Some(a + b)
      case _ => None
  }

  /** The sum of the counts, when all are present. */
  function SumTokens(entries: seq<Entry>): int
    requires forall i :: 0 <= i < |entries| ==> Tokens(entries[i]).Some?
  {
    if entries == [] then 0
    else SumTokens(entries[..|entries| - 1]) + Tokens(entries[|entries| - 1]).value
  }

  /** The total is a number exactly when every entry has a count, and then it is their sum. */
  lemma {:induction false} TotalTokensDefined(entries: seq<Entry>)
    ensures TotalTokens(entries).Some? <==> forall i :: 0 <= i < |entries| ==> Tokens(entries[i]).Some?
    ensures TotalTokens(entries).Some? ==> TotalTokens(entries).value == SumTokens(entries)
  {
    if entries != [] {
      var init := entries[..|entries| - 1];
      TotalTokensDefined(init);
      assert forall i :: 0 <= i < |init| ==> init[i] == entries[i];
    }
  }

  /** A seeded log never has a total: the system prompts carry no count. */
  lemma SeededTotalIsNaN(system: seq<string>)
    requires system != []
    ensures TotalTokens(Seeded(system)) == None
  {
    TotalTokensDefined(Seeded(system));
    assert Tokens(Seeded(system)[0]).None?;
  }

  /** The conversation log of a session. */
  class History {
    var entries: seq<Entry>
    const system: seq<string>

    /** `new History(prompts)`: seeded with the system prompts. */
    constructor (system: seq<string>)
      ensures this.system == system
      ensures entries == Seeded(system)
    {
      this.system := system;
      new;
      Clear();
    }

    /** `add(message)`: appends the entry. */
    method Add(e: Entry)
      modifies this
      ensures entries == old(entries) + [e]
    {
      entries := entries + [e];
    }

    /** `clear()`: empties the log and adds one message per system prompt. */
    method Clear()
      modifies this
      ensures entries == Seeded(system)
    {
      entries := [];
      for i := 0 to |system|
        invariant entries == Seeded(system[..i])
      {
        Add(Message(Some(system[i]), None));
        assert system[..i + 1] == system[..i] + [system[i]];
      }
      assert system[..|system|] == system;
    }

    /** `get()`: the role and content of every entry. */
    function Get(): (vs: seq<View>)
      reads this
      ensures |vs| == |entries|
      ensures forall i :: 0 <= i < |entries| ==> vs[i] == ViewOf(entries[i])
    {
      Views(entries)
    }

    /** `totalTokens()`. */
    function Total(): (r: Option<int>)
      reads this
      ensures r.Some? <==> forall i :: 0 <= i < |entries| ==> Tokens(entries[i]).Some?
      ensures r.Some? ==> r.value == SumTokens(entries)
    {
      TotalTokensDefined(entries);
      TotalTokens(entries)
    }

    /** `lastMessage()`: `findLast` with a test that reads the unbound name
        `Role`, so it throws as soon as there is an entry to test, and
        gives `undefined` on an empty log. */
    function LastMessage(): (r: Result<Option<Entry>>)
      reads this
      ensures r.Ok? <==> entries == []
      ensures r.Ok? ==> r.value.None?
    {
      if entries == [] then Ok(None) else Err(ReferenceError("Role"))
    }
  }
}

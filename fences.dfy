/** The fenced-block scanner that `BlackBox.extractCodeBlocks` and the
    stand-alone extraction script both run, specified declaratively: a fence
    line is one whose trimmed text starts with three backticks; the k-th block
    is made of the lines strictly between the (2k)-th and (2k+1)-th fence lines,
    each followed by a line feed, trimmed as a whole. */
module Fences {
  import opened Text

  const Fence: string := "```"

  /** `line.trim().startsWith("```")`. */
  predicate IsFence(line: string)
  {
    StartsWith(Trim(line), Fence)
  }

  /** Which lines are fence lines. */
  function FenceFlags(lines: seq<string>): (flags: seq<bool>)
    ensures |flags| == |lines|
  {
    seq(|lines|, i requires 0 <= i < |lines| => IsFence(lines[i]))
  }

  /** The positions of the set flags among the first `n`, in increasing order. */
  function Positions(flags: seq<bool>, n: nat): seq<nat>
    requires n <= |flags|
  {
    if n == 0 then []
    else Positions(flags, n - 1) + (if flags[n - 1] then [n - 1] else [])
  }

  /** Every recorded position is a set flag among the first `n`. */
  lemma {:induction false} PositionsBounded(flags: seq<bool>, n: nat)
    requires n <= |flags|
    ensures forall k :: 0 <= k < |Positions(flags, n)| ==> Positions(flags, n)[k] < n && flags[Positions(flags, n)[k]]
  {
    if n > 0 {
      PositionsBounded(flags, n - 1);
    }
  }

  /** The positions are recorded in increasing order. */
  lemma {:induction false} PositionsIncreasing(flags: seq<bool>, n: nat)
    requires n <= |flags|
    ensures forall a, b :: 0 <= a < b < |Positions(flags, n)| ==> Positions(flags, n)[a] < Positions(flags, n)[b]
  {
    if n > 0 {
      PositionsIncreasing(flags, n - 1);
      PositionsBounded(flags, n - 1);
    }
  }

  /** The positions of the fence lines among the first `n` lines, in increasing order. */
  function FenceIndices(lines: seq<string>, n: nat): (f: seq<nat>)
    requires n <= |lines|
  {
    Positions(FenceFlags(lines), n)
  }

  /** Lines `a` to `b - 1`, each followed by a line feed, concatenated: what
      the scanner accumulates between two fences (empty for a range that
      is empty or runs past the last line). */
  function Accumulated(lines: seq<string>, a: nat, b: nat): string
    decreases b - a
  {
    if a >= b || b > |lines| then "" else Accumulated(lines, a, b - 1) + lines[b - 1] + "\n"
  }

  /** The block between the (2j)-th and (2j+1)-th recorded fences, trimmed. */
  function Block(lines: seq<string>, f: seq<nat>, j: nat): string
    requires 2 * j + 1 < |f|
  {
    Trim(Accumulated(lines, f[2 * j] + 1, f[2 * j + 1]))
  }

  /** The blocks between the first `n` pairs of recorded fences. */
  function PairBlocks(lines: seq<string>, f: seq<nat>, n: nat): (blocks: seq<string>)
    requires 2 * n <= |f|
    ensures |blocks| == n
  {
    if n == 0 then [] else PairBlocks(lines, f, n - 1) + [Block(lines, f, n - 1)]
  }

  /** The blocks of a sequence of lines: one per pair of fence lines, an unpaired last fence opens nothing. */
  function BlocksOf(lines: seq<string>): seq<string>
  {
    var f := FenceIndices(lines, |lines|);
    PairBlocks(lines, f, |f| / 2)
  }

  /** The blocks of a response: its lines are what `split("\n")` gives. */
  function CodeBlocks(markdown: string): seq<string>
  {
    BlocksOf(Split(markdown, '\n'))
  }

  /** The number of set flags, counted from the front. */
  function CountSet(flags: seq<bool>): nat
  {
    if flags == [] then 0 else (if flags[0] then 1 else 0) + CountSet(flags[1..])
  }

  /** The number of fence lines. */
  function CountFences(lines: seq<string>): nat
  {
    CountSet(FenceFlags(lines))
  }

  lemma {:induction false} CountSetAppend(flags: seq<bool>, b: bool)
    ensures CountSet(flags + [b]) == CountSet(flags) + (if b then 1 else 0)
  {
    if flags != [] {
      assert (flags + [b])[1..] == flags[1..] + [b];
      CountSetAppend(flags[1..], b);
    }
  }

  /** Every set flag among the first `n` is recorded, and only those. */
  lemma {:induction false} PositionsExact(flags: seq<bool>, n: nat)
    requires n <= |flags|
    ensures forall i :: 0 <= i < n ==> (flags[i] <==> i in Positions(flags, n))
  {
    if n > 0 {
      PositionsExact(flags, n - 1);
      PositionsBounded(flags, n - 1);
      assert n - 1 !in Positions(flags, n - 1);
    }
  }

  /** No set flag, no position. */
  lemma {:induction false} PositionsNone(flags: seq<bool>, n: nat)
    requires n <= |flags|
    requires forall i :: 0 <= i < n ==> !flags[i]
    ensures Positions(flags, n) == []
  {
    if n > 0 {
      PositionsNone(flags, n - 1);
    }
  }

  /** There are as many positions as set flags. */
  lemma {:induction false} PositionsCount(flags: seq<bool>, n: nat)
    requires n <= |flags|
    ensures |Positions(flags, n)| == CountSet(flags[..n])
  {
    if n > 0 {
      PositionsCount(flags, n - 1);
      assert flags[..n] == flags[..n - 1] + [flags[n - 1]];
      CountSetAppend(flags[..n - 1], flags[n - 1]);
    }
  }

  /** A line is a recorded fence exactly when it is a fence line. */
  lemma FenceIndicesExact(lines: seq<string>, i: nat)
    requires i < |lines|
    ensures IsFence(lines[i]) <==> i in FenceIndices(lines, |lines|)
  {
    PositionsExact(FenceFlags(lines), |lines|);
  }

  /** The number of blocks is half the number of fence lines, rounded down:
      a trailing unclosed block is dropped. */
  lemma BlockCount(lines: seq<string>)
    ensures |BlocksOf(lines)| == CountFences(lines) / 2
  {
    var flags := FenceFlags(lines);
    PositionsCount(flags, |lines|);
    assert flags[..|lines|] == flags;
  }

  /** A response without a fence line has no blocks. */
  lemma NoFenceNoBlocks(markdown: string)
    requires forall line :: line in Split(markdown, '\n') ==> !IsFence(line)
    ensures CodeBlocks(markdown) == []
  {
    var lines := Split(markdown, '\n');
    var flags := FenceFlags(lines);
    forall i | 0 <= i < |lines|
      ensures !flags[i]
    {
      assert lines[i] in lines;
    }
    PositionsNone(flags, |lines|);
  }

  /** The lines a block is made of contain no fence line: the k-th block is
      taken between the (2k)-th fence and the very next one. */
  lemma BlockInteriorHasNoFence(lines: seq<string>, j: nat, i: nat)
    requires j < |FenceIndices(lines, |lines|)| / 2
    requires FenceIndices(lines, |lines|)[2 * j] < i < FenceIndices(lines, |lines|)[2 * j + 1]
    requires i < |lines|
    ensures !IsFence(lines[i])
  {
    var f := FenceIndices(lines, |lines|);
    PositionsIncreasing(FenceFlags(lines), |lines|);
    forall m | 0 <= m < |f|
      ensures f[m] != i
    {
      if m < 2 * j {
        assert f[m] < f[2 * j];
      } else if m > 2 * j + 1 {
        assert f[2 * j + 1] < f[m];
      }
    }
    FenceIndicesExact(lines, i);
  }

  /** One more line for the scanner: the recorded fences grow by that line when it is a fence. */
  lemma FenceIndicesStep(lines: seq<string>, i: nat)
    requires i < |lines|
    ensures FenceIndices(lines, i + 1) == FenceIndices(lines, i) + (if IsFence(lines[i]) then [i] else [])
  {
  }

  /** The j-th of the first `n` pair blocks lies between the (2j)-th and (2j+1)-th fences. */
  lemma {:induction false} PairBlockAt(lines: seq<string>, f: seq<nat>, n: nat, j: nat)
    requires 2 * n <= |f| && j < n
    ensures PairBlocks(lines, f, n)[j] == Block(lines, f, j)
  {
    if j < n - 1 {
      PairBlockAt(lines, f, n - 1, j);
    }
  }

  /** Pair blocks only look at the fences they pair: more fences leave them alone. */
  lemma {:induction false} PairBlocksPrefix(lines: seq<string>, f: seq<nat>, g: seq<nat>, n: nat)
    requires 2 * n <= |f| && 2 * n <= |g|
    requires forall k :: 0 <= k < 2 * n ==> g[k] == f[k]
    ensures PairBlocks(lines, g, n) == PairBlocks(lines, f, n)
  {
    if n > 0 {
      PairBlocksPrefix(lines, f, g, n - 1);
      assert g[2 * n - 2] == f[2 * n - 2] && g[2 * n - 1] == f[2 * n - 1];
    }
  }

  /** The state of the scanner after the first `i` lines, given the fences
      `f` it has met: the flag is set exactly when their number is odd; each
      closed pair of fences gave its block; the open block holds the lines
      since its fence. */
  ghost predicate Scanned(lines: seq<string>, f: seq<nat>, i: nat, inCodeBlock: bool, codeBlock: string, codeBlocks: seq<string>)
  {
    && |f| == 2 * |codeBlocks| + (if inCodeBlock then 1 else 0)
    && codeBlocks == PairBlocks(lines, f, |codeBlocks|)
    && (inCodeBlock ==> f[|f| - 1] < i && codeBlock == Accumulated(lines, f[|f| - 1] + 1, i))
    && (!inCodeBlock ==> codeBlock == "")
  }

  /** A fence line outside a block opens one. */
  lemma ScanOpen(lines: seq<string>, f: seq<nat>, i: nat, codeBlocks: seq<string>)
    requires Scanned(lines, f, i, false, "", codeBlocks)
    ensures Scanned(lines, f + [i], i + 1, true, "", codeBlocks)
  {
    PairBlocksPrefix(lines, f, f + [i], |codeBlocks|);
  }

  /** A fence line inside a block closes it and records it trimmed. */
  lemma ScanClose(lines: seq<string>, f: seq<nat>, i: nat, codeBlock: string, codeBlocks: seq<string>)
    requires Scanned(lines, f, i, true, codeBlock, codeBlocks)
    ensures Scanned(lines, f + [i], i + 1, false, "", codeBlocks + [Trim(codeBlock)])
  {
    var n := |codeBlocks|;
    var g := f + [i];
    assert g[2 * n] == f[|f| - 1] && g[2 * n + 1] == i;
    var last := Block(lines, g, n);
    assert last == Trim(codeBlock);
    PairBlocksPrefix(lines, f, g, n);
    assert PairBlocks(lines, g, n + 1) == PairBlocks(lines, g, n) + [last];
  }

  /** A line inside a block is added to it, followed by a line feed. */
  lemma ScanInside(lines: seq<string>, f: seq<nat>, i: nat, codeBlock: string, codeBlocks: seq<string>)
    requires i < |lines|
    requires Scanned(lines, f, i, true, codeBlock, codeBlocks)
    ensures Scanned(lines, f, i + 1, true, codeBlock + lines[i] + "\n", codeBlocks)
  {
    assert Accumulated(lines, f[|f| - 1] + 1, i + 1) == codeBlock + lines[i] + "\n";
  }

  /** Once every line is scanned, the closed blocks are all the blocks. */
  lemma ScannedAll(lines: seq<string>, f: seq<nat>, inCodeBlock: bool, codeBlock: string, codeBlocks: seq<string>)
    requires f == FenceIndices(lines, |lines|)
    requires Scanned(lines, f, |lines|, inCodeBlock, codeBlock, codeBlocks)
    ensures codeBlocks == BlocksOf(lines)
  {
    assert |f| / 2 == |codeBlocks|;
  }

  /** The j-th block is made of the lines between the (2j)-th and (2j+1)-th fences. */
  lemma BlockAt(lines: seq<string>, j: nat)
    requires j < |FenceIndices(lines, |lines|)| / 2
    ensures var f := FenceIndices(lines, |lines|);
      BlocksOf(lines)[j] == Trim(Accumulated(lines, f[2 * j] + 1, f[2 * j + 1]))
  {
    var f := FenceIndices(lines, |lines|);
    var n := |f| / 2;
    assert 2 * j + 1 < |f| && 2 * n <= |f|;
    assert BlocksOf(lines) == PairBlocks(lines, f, n);
    PairBlockAt(lines, f, n, j);
  }

  /** The example response splits into its three lines. */
  lemma ExampleLines()
    ensures Split("```json\n[1]\n```", '\n') == ["```json", "[1]", "```"]
  {
    var tail := "[1]" + ['\n'] + "```";
    SplitNone("```", '\n');
    SplitFirst("[1]", '\n', "```");
    assert Split(tail, '\n') == ["[1]", "```"];
    assert "```json\n[1]\n```" == "```json" + ['\n'] + tail;
    SplitFirst("```json", '\n', tail);
  }

  /** The example lines have their fences on the first and last line. */
  lemma ExampleFences()
    ensures FenceIndices(["```json", "[1]", "```"], 3) == [0, 2]
  {
    var lines := ["```json", "[1]", "```"];
    TrimTrimmed("```json");
    TrimTrimmed("[1]");
    TrimTrimmed("```");
    var flags := FenceFlags(lines);
    assert flags[0] && !flags[1] && flags[2];
    assert Positions(flags, 1) == [0];
    assert Positions(flags, 2) == [0];
  }

  /** An opening fence, one body line and a closing fence give that line as the only block. */
  lemma ExampleBlocks()
    ensures BlocksOf(["```json", "[1]", "```"]) == ["[1]"]
  {
    var lines := ["```json", "[1]", "```"];
    ExampleFences();
    var f: seq<nat> := [0, 2];
    ExampleBody(lines);
    assert PairBlocks(lines, f, 1) == PairBlocks(lines, f, 0) + [Block(lines, f, 0)];
  }

  /** The line between the two example fences, trimmed, is the block. */
  lemma ExampleBody(lines: seq<string>)
    requires |lines| == 3 && lines[1] == "[1]"
    ensures Block(lines, [0, 2], 0) == "[1]"
  {
    assert Accumulated(lines, 1, 1) == "";
    assert Accumulated(lines, 1, 2) == "[1]" + ['\n'];
    TrimTrailingSpace("[1]", '\n');
    TrimTrimmed("[1]");
  }

  /** A response with one fenced JSON body yields that body. */
  lemma OneJsonBlock()
    ensures CodeBlocks("```json\n[1]\n```") == ["[1]"]
  {
    ExampleLines();
    ExampleBlocks();
  }
}

/**
 * Retrieval fallbacks and the numbered outline that turns retrieved
 * collections into prompt text (core/rag_service.py, responses-api-server/utils.py,
 * and the older `rag_context_string_simple` of responses-api-server/index.py).
 *
 * A retrieved collection is a dictionary with optional `doc_summary` and
 * `chunks` entries; `None` below stands for an absent key. The retrieval call
 * itself is an oracle whose outcome is given as a `RetrievalOutcome`.
 */
module RagFormat {
  import opened Common

  datatype Collection = Collection(docSummary: Option<string>, chunks: Option<seq<string>>)

  /** `collection.get('doc_summary', '')` */
  function SummaryOf(c: Collection): string {
    match c.docSummary
    case Some(s) => s
    case None => ""
  }

  /** `collection.get('chunks', [])` */
  function ChunksOf(c: Collection): seq<string> {
    match c.chunks
    case Some(cs) => cs
    case None => []
  }

  // ---------------------------------------------------------------------------
  // Retrieval fallbacks
  // ---------------------------------------------------------------------------

  /** What the retrieval backend did: raised, or returned a list or some other value. */
  datatype RetrievalOutcome = Raised | ReturnedList(items: seq<Collection>) | ReturnedOther(truthy: bool)

  /**
   * `RAGService.__init__`: a passed adapter is kept; otherwise one is built,
   * and a `ValueError` from its configuration leaves RAG disabled.
   */
  function AdapterAvailable(adapterPassed: bool, constructionRaisesValueError: bool): (available: bool)
    ensures available <==> adapterPassed || !constructionRaisesValueError
  {
    if adapterPassed then true else !constructionRaisesValueError
  }

  /** `_retrieve_rag_context` (utils): the list when it is a non-empty list, otherwise []. */
  function RetrieveUtils(outcome: RetrievalOutcome): (r: seq<Collection>)
    ensures r != [] <==> outcome.ReturnedList? && outcome.items != []
    ensures r != [] ==> r == outcome.items
  {
    match outcome
    case ReturnedList(items) => if |items| > 0 then items else []
    case _ => []
  }

  /** `RAGService.retrieve`: [] with no adapter, otherwise the same fallbacks as the utils helper. */
  function Retrieve(adapterAvailable: bool, outcome: RetrievalOutcome): (r: seq<Collection>)
    ensures !adapterAvailable ==> r == []
    ensures adapterAvailable ==> r == RetrieveUtils(outcome)
    ensures r != [] ==> outcome.ReturnedList? && r == outcome.items
  {
    if !adapterAvailable then [] else RetrieveUtils(outcome)
  }

  // ---------------------------------------------------------------------------
  // The numbered outline
  // ---------------------------------------------------------------------------

  const Preamble: string := ("The following is additional " + "context that may be helpful " + "in answering the user's " + "query.\n\n")

  /** `#i summary` */
  function EntryLine(i: nat, summary: string): string {
    "#" + NatToString(i) + " " + summary
  }

  /** `#i.j chunk` */
  function ChunkLine(i: nat, j: nat, chunk: string): string {
    "#" + NatToString(i) + "." + NatToString(j) + " " + chunk
  }

  /** The chunk lines of collection `i`, numbered from `j`. */
  function ChunkLines(i: nat, chunks: seq<string>, j: nat): (lines: seq<string>)
    ensures |lines| == |chunks|
    decreases |chunks|
  {
    if chunks == [] then [] else [ChunkLine(i, j, chunks[0])] + ChunkLines(i, chunks[1..], j + 1)
  }

  /** Line m of the chunk lines numbered from j is chunk m numbered j + m. */
  lemma {:induction false} ChunkLinesAt(i: nat, chunks: seq<string>, j: nat, m: nat)
    requires m < |chunks|
    ensures ChunkLines(i, chunks, j)[m] == ChunkLine(i, j + m, chunks[m])
    decreases m
  {
    if m > 0 {
      ChunkLinesAt(i, chunks[1..], j + 1, m - 1);
    }
  }

  /** The lines one collection contributes when it is number `i`. */
  function Block(c: Collection, i: nat): seq<string> {
    [EntryLine(i, SummaryOf(c))] + ChunkLines(i, ChunksOf(c), 1)
  }

  /** All outline lines, collections numbered from `i`. */
  function Outline(colls: seq<Collection>, i: nat): seq<string>
    decreases |colls|
  {
    if colls == [] then [] else Block(colls[0], i) + Outline(colls[1..], i + 1)
  }

  /** Each line followed by a newline, concatenated. */
  function Terminated(lines: seq<string>): string
    decreases |lines|
  {
    if lines == [] then "" else lines[0] + "\n" + Terminated(lines[1..])
  }

  function TotalChunks(colls: seq<Collection>): nat
    decreases |colls|
  {
    if colls == [] then 0 else |ChunksOf(colls[0])| + TotalChunks(colls[1..])
  }

  /** `RAGService.format_context(rag_context)` */
  function FormatContext(colls: seq<Collection>): (text: string)
    ensures text == "" <==> colls == []
    ensures colls != [] ==> StartsWith(text, Preamble)
  {
    if colls == [] then "" else Preamble + Terminated(Outline(colls, 1))
  }

  /** One outline line per collection plus one per chunk. */
  lemma {:induction false} OutlineLength(colls: seq<Collection>, i: nat)
    ensures |Outline(colls, i)| == |colls| + TotalChunks(colls)
    decreases |colls|
  {
    if colls != [] {
      OutlineLength(colls[1..], i + 1);
    }
  }

  /** Index in the outline of the entry line of collection `k` (0-based). */
  function EntryPosition(colls: seq<Collection>, k: nat): nat
    requires k <= |colls|
  {
    k + TotalChunks(colls[..k])
  }

  lemma BlockEntry(c: Collection, i: nat)
    ensures Block(c, i) != [] && Block(c, i)[0] == EntryLine(i, SummaryOf(c))
  {
  }

  /** The first block opens the outline. */
  lemma OutlineHead(colls: seq<Collection>, i: nat, p: nat)
    requires colls != [] && p < |Block(colls[0], i)|
    ensures p < |Outline(colls, i)| && Outline(colls, i)[p] == Block(colls[0], i)[p]
  {
    assert Outline(colls, i) == Block(colls[0], i) + Outline(colls[1..], i + 1);
  }

  /** Outlining two runs of collections is outlining each, the second numbered on. */
  lemma {:induction false} OutlineConcat(a: seq<Collection>, b: seq<Collection>, i: nat)
    ensures Outline(a + b, i) == Outline(a, i) + Outline(b, i + |a|)
    decreases |a|
  {
    if a == [] {
      assert a + b == b;
    } else {
      assert (a + b)[1..] == a[1..] + b;
      OutlineConcat(a[1..], b, i + 1);
    }
  }

  /** Cut before collection k, the outline is the earlier blocks, then k's block, then the rest. */
  lemma OutlineAround(colls: seq<Collection>, i: nat, k: nat)
    requires k < |colls|
    ensures |Outline(colls[..k], i)| == EntryPosition(colls, k)
    ensures Outline(colls, i) == Outline(colls[..k], i) + Outline(colls[k..], i + k)
    ensures colls[k..] != [] && colls[k..][0] == colls[k]
  {
    var a := colls[..k];
    var b := colls[k..];
    assert a + b == colls;
    assert |a| == k;
    OutlineConcat(a, b, i);
    assert Outline(colls, i) == Outline(a, i) + Outline(b, i + k);
    OutlineLength(a, i);
    assert b[0] == colls[k];
  }

  /** Line 1 + m of a block is its chunk m. */
  lemma BlockChunkAt(c: Collection, i: nat, m: nat)
    requires m < |ChunksOf(c)|
    ensures 1 + m < |Block(c, i)| && Block(c, i)[1 + m] == ChunkLine(i, 1 + m, ChunksOf(c)[m])
  {
    var lines := ChunkLines(i, ChunksOf(c), 1);
    ChunkLinesAt(i, ChunksOf(c), 1, m);
    assert Block(c, i)[1 + m] == lines[m];
  }

  /** The entry line of collection k is `#(i+k) summary`. */
  lemma OutlineEntryAt(colls: seq<Collection>, i: nat, k: nat)
    requires k < |colls|
    ensures EntryPosition(colls, k) < |Outline(colls, i)|
    ensures Outline(colls, i)[EntryPosition(colls, k)] == EntryLine(i + k, SummaryOf(colls[k]))
  {
    OutlineAround(colls, i, k);
    var pre := Outline(colls[..k], i);
    var post := Outline(colls[k..], i + k);
    BlockEntry(colls[k], i + k);
    OutlineHead(colls[k..], i + k, 0);
    assert (pre + post)[|pre|] == post[0];
  }

  /** Line `EntryPosition(colls, k) + 1 + m` of the outline is chunk m of collection k, as `#(i+k).(m+1) chunk`. */
  predicate ChunkPlaced(colls: seq<Collection>, i: nat, k: nat, m: nat)
    requires k < |colls| && m < |ChunksOf(colls[k])|
  {
    var p := EntryPosition(colls, k) + 1 + m;
    p < |Outline(colls, i)| && Outline(colls, i)[p] == ChunkLine(i + k, m + 1, ChunksOf(colls[k])[m])
  }

  /** Chunk m of collection k follows its entry line as `#(i+k).(m+1) chunk`. */
  lemma OutlineChunkAt(colls: seq<Collection>, i: nat, k: nat, m: nat)
    requires k < |colls| && m < |ChunksOf(colls[k])|
    ensures ChunkPlaced(colls, i, k, m)
  {
    OutlineAround(colls, i, k);
    var c := colls[k];
    var pre := Outline(colls[..k], i);
    var post := Outline(colls[k..], i + k);
    var line := ChunkLine(i + k, m + 1, ChunksOf(c)[m]);
    BlockChunkAt(c, i + k, m);
    assert Block(colls[k..][0], i + k)[1 + m] == line;
    OutlineHead(colls[k..], i + k, 1 + m);
    assert 1 + m < |post| && post[1 + m] == line;
    assert (pre + post)[|pre| + 1 + m] == line;
  }

  /**
   * The outline is in input order with 1-based numbering: collection k sits
   * at its entry position as `#(k+1) summary`, directly followed by its chunks
   * as `#(k+1).(m+1) chunk`.
   */
  lemma OutlineAt(colls: seq<Collection>, k: nat)
    requires k < |colls|
    ensures EntryPosition(colls, k) + |ChunksOf(colls[k])| < |Outline(colls, 1)|
    ensures Outline(colls, 1)[EntryPosition(colls, k)] == EntryLine(1 + k, SummaryOf(colls[k]))
    ensures forall m :: 0 <= m < |ChunksOf(colls[k])| ==> ChunkPlaced(colls, 1, k, m)
  {
    OutlineEntryAt(colls, 1, k);
    var n := |ChunksOf(colls[k])|;
    if n != 0 {
      OutlineChunkAt(colls, 1, k, n - 1);
    }
    forall m | 0 <= m < n
      ensures ChunkPlaced(colls, 1, k, m)
    {
      OutlineChunkAt(colls, 1, k, m);
    }
  }

  lemma {:induction false} TerminatedAppend(a: seq<string>, b: seq<string>)
    ensures Terminated(a + b) == Terminated(a) + Terminated(b)
    decreases |a|
  {
    if a != [] {
      assert (a + b)[0] == a[0];
      assert (a + b)[1..] == a[1..] + b;
      TerminatedAppend(a[1..], b);
      assert Terminated(a + b) == a[0] + "\n" + (Terminated(a[1..]) + Terminated(b));
    } else {
      assert a + b == b;
    }
  }

  lemma OutlineAppend(colls: seq<Collection>, c: Collection, i: nat)
    ensures Outline(colls + [c], i) == Outline(colls, i) + Block(c, i + |colls|)
  {
    OutlineConcat(colls, [c], i);
    assert [c][1..] == [];
    assert Outline([c], i + |colls|) == Block(c, i + |colls|) + Outline([], i + |colls| + 1);
  }

  lemma ChunkLinesSnoc(i: nat, chunks: seq<string>, j: nat)
    requires j < |chunks|
    ensures ChunkLines(i, chunks[..j + 1], 1) == ChunkLines(i, chunks[..j], 1) + [ChunkLine(i, j + 1, chunks[j])]
  {
    var longer := ChunkLines(i, chunks[..j + 1], 1);
    var shorter := ChunkLines(i, chunks[..j], 1);
    forall m | 0 <= m < j + 1
      ensures longer[m] == (shorter + [ChunkLine(i, j + 1, chunks[j])])[m]
    {
      ChunkLinesAt(i, chunks[..j + 1], 1, m);
      if m < j {
        ChunkLinesAt(i, chunks[..j], 1, m);
      }
    }
  }

  lemma TerminatedSingle(line: string)
    ensures Terminated([line]) == line + "\n"
  {
    assert [line][1..] == [];
  }

  lemma BlockTerminated(c: Collection, i: nat)
    ensures Terminated(Block(c, i)) == EntryLine(i, SummaryOf(c)) + "\n" + Terminated(ChunkLines(i, ChunksOf(c), 1))
  {
    assert Block(c, i)[1..] == ChunkLines(i, ChunksOf(c), 1);
  }

  /** The inner loop of `_format_rag_context`: one `#i.j chunk` line per chunk appended to `text`. */
  method AppendChunkLines(text: string, i: nat, chunks: seq<string>) returns (t: string)
    ensures t == text + Terminated(ChunkLines(i, chunks, 1))
  {
    t := text;
    var j := 0;
    assert chunks[..0] == [];
    while j < |chunks|
      invariant 0 <= j <= |chunks|
      invariant t == text + Terminated(ChunkLines(i, chunks[..j], 1))
    {
      var line := ChunkLine(i, j + 1, chunks[j]);
      var done := ChunkLines(i, chunks[..j], 1);
      ChunkLinesSnoc(i, chunks, j);
      TerminatedAppend(done, [line]);
      TerminatedSingle(line);
      assert t + (line + "\n") == text + (Terminated(done) + (line + "\n"));
      t := t + (line + "\n");
      j := j + 1;
    }
    assert chunks[..j] == chunks;
  }

  /** One step of the outer loop: appending collection i's lines extends the outline of the first i collections. */
  lemma OutlinePrefixStep(colls: seq<Collection>, i: nat, p: string)
    requires i < |colls|
    ensures p + Terminated(Outline(colls[..i + 1], 1))
         == ((p + Terminated(Outline(colls[..i], 1))) + (EntryLine(i + 1, SummaryOf(colls[i])) + "\n"))
            + Terminated(ChunkLines(i + 1, ChunksOf(colls[i]), 1))
  {
    var c := colls[i];
    var done := Terminated(Outline(colls[..i], 1));
    var head := EntryLine(i + 1, SummaryOf(c)) + "\n";
    var tail := Terminated(ChunkLines(i + 1, ChunksOf(c), 1));
    assert Terminated(Outline(colls[..i + 1], 1)) == done + (head + tail) by {
      BlockTerminated(c, i + 1);
      assert colls[..i + 1] == colls[..i] + [c];
      OutlineAppend(colls[..i], c, 1);
      TerminatedAppend(Outline(colls[..i], 1), Block(c, i + 1));
    }
    ConcatAssoc(p, done, head, tail);
  }

  lemma ConcatAssoc(a: string, b: string, c: string, d: string)
    ensures a + (b + (c + d)) == ((a + b) + c) + d
  {
  }

  /**
   * `_format_rag_context` (utils), written as the loop it is: it builds the
   * same text as `RAGService.format_context` for every input.
   */
  method FormatRagContextUtils(colls: seq<Collection>) returns (text: string)
    ensures text == FormatContext(colls)
  {
    if |colls| == 0 {
      return "";
    }
    text := Preamble;
    var i := 0;
    assert Outline(colls[..0], 1) == [];
    while i < |colls|
      invariant 0 <= i <= |colls|
      invariant text == Preamble + Terminated(Outline(colls[..i], 1))
    {
      var c := colls[i];
      OutlinePrefixStep(colls, i, Preamble);
      text := AppendChunkLines(text + (EntryLine(i + 1, SummaryOf(c)) + "\n"), i + 1, ChunksOf(c));
      i := i + 1;
    }
    assert colls[..i] == colls;
  }

  /** `retrieve_and_format`: the raw result and its formatting, as a pair. */
  function RetrieveAndFormat(adapterAvailable: bool, outcome: RetrievalOutcome): (res: (seq<Collection>, string))
    ensures res.1 == FormatContext(res.0)
    ensures res.0 == Retrieve(adapterAvailable, outcome)
    ensures res.1 == "" <==> res.0 == []
  {
    var raw := Retrieve(adapterAvailable, outcome);
    (raw, FormatContext(raw))
  }

  lemma TerminatedThree(x: string, y: string, z: string)
    ensures Terminated([x, y, z]) == x + "\n" + y + "\n" + z + "\n"
  {
    assert [x, y, z][1..] == [y, z];
    assert [y, z][1..] == [z];
    TerminatedSingle(z);
    assert Terminated([y, z]) == y + "\n" + (z + "\n");
    assert Terminated([x, y, z]) == x + "\n" + (y + "\n" + (z + "\n"));
  }

  /** The outline of one collection with two chunks. */
  lemma OutlineExample()
    ensures Outline([Collection(Some("S"), Some(["a", "b"]))], 1) == ["#1 S", "#1.1 a", "#1.2 b"]
  {
    var c := Collection(Some("S"), Some(["a", "b"]));
    assert NatToString(1) == "1";
    assert NatToString(2) == "2";
    assert EntryLine(1, "S") == "#1 S";
    var cl := ChunkLines(1, ["a", "b"], 1);
    ChunkLinesAt(1, ["a", "b"], 1, 0);
    ChunkLinesAt(1, ["a", "b"], 1, 1);
    assert cl[0] == ChunkLine(1, 1, "a") == "#1.1 a";
    assert cl[1] == ChunkLine(1, 2, "b") == "#1.2 b";
    assert cl == ["#1.1 a", "#1.2 b"];
    assert [c][1..] == [];
    assert Outline([c], 1) == Block(c, 1) + Outline([], 2);
  }

  /** A concrete rendering: one collection with two chunks. */
  lemma FormatContextExample()
    ensures FormatContext([Collection(Some("S"), Some(["a", "b"]))]) == Preamble + "#1 S\n#1.1 a\n#1.2 b\n"
  {
    var colls := [Collection(Some("S"), Some(["a", "b"]))];
    var body := "#1 S\n#1.1 a\n#1.2 b\n";
    OutlineExample();
    TerminatedThree("#1 S", "#1.1 a", "#1.2 b");
    assert "#1 S" + "\n" + "#1.1 a" + "\n" + "#1.2 b" + "\n" == body;
    assert Terminated(Outline(colls, 1)) == body;
  }

  // ---------------------------------------------------------------------------
  // The older whitespace template (responses-api-server/index.py)
  // ---------------------------------------------------------------------------

  function Spaces(n: nat): (s: string)
    ensures |s| == n && forall k :: 0 <= k < n ==> s[k] == ' '
  {
    if n == 0 then "" else " " + Spaces(n - 1)
  }

  /** The three-line preamble of `rag_context_string_simple`, with its source indentation kept. */
  const SimplePreamble: string :=
    "The following is additional context that may be\n" + Spaces(29)
    + "helpful in answering the query. Use them only\n" + Spaces(29)
    + "if it is relevant to the user's query."

  function SimpleEntry(i: nat, summary: string): string {
    "\n" + Spaces(8) + "#" + NatToString(i) + " " + summary + "\n" + Spaces(8)
  }

  function SimpleChunk(i: nat, j: nat, chunk: string): string {
    "\n" + Spaces(12) + "#" + NatToString(i) + "." + NatToString(j) + " " + chunk + "\n" + Spaces(12)
  }

  function SimpleChunks(i: nat, chunks: seq<string>, j: nat): string
    decreases |chunks|
  {
    if chunks == [] then "" else SimpleChunk(i, j, chunks[0]) + SimpleChunks(i, chunks[1..], j + 1)
  }

  /** What one collection adds: its entry, then its chunks. */
  function SimplePiece(i: nat, summary: string, chunks: seq<string>): string {
    SimpleEntry(i, summary) + SimpleChunks(i, chunks, 1)
  }

  lemma ConcatAssoc3(a: string, b: string, c: string)
    ensures (a + b) + c == a + (b + c)
  {
  }

  /**
   * The loop of `rag_context_string_simple` from collection number `i` on,
   * with the text built so far; `None` is the `KeyError` that a collection
   * without `doc_summary` or `chunks` raises.
   */
  function SimpleLoop(colls: seq<Collection>, i: nat, acc: string): Option<string>
    decreases |colls|
  {
    if colls == [] then Some(acc)
    else
      var c := colls[0];
      if c.docSummary.None? || c.chunks.None? then None
      else
        var start := if acc == "" then SimplePreamble else acc;
        SimpleLoop(colls[1..], i + 1, start + SimplePiece(i, c.docSummary.value, c.chunks.value))
  }

  /** `rag_context_string_simple(rag_context)` */
  function RagContextStringSimple(colls: seq<Collection>): Option<string> {
    SimpleLoop(colls, 1, "")
  }

  predicate AllKeysPresent(colls: seq<Collection>) {
    forall k :: 0 <= k < |colls| ==> colls[k].docSummary.Some? && colls[k].chunks.Some?
  }

  function SimpleBody(colls: seq<Collection>, i: nat): string
    requires AllKeysPresent(colls)
    decreases |colls|
  {
    if colls == [] then ""
    else SimplePiece(i, colls[0].docSummary.value, colls[0].chunks.value) + SimpleBody(colls[1..], i + 1)
  }

  lemma {:induction false} SimpleLoopFromNonEmpty(colls: seq<Collection>, i: nat, acc: string)
    requires acc != [] && AllKeysPresent(colls)
    ensures SimpleLoop(colls, i, acc) == Some(acc + SimpleBody(colls, i))
    decreases |colls|
  {
    if colls != [] {
      var c := colls[0];
      assert c.docSummary.Some? && c.chunks.Some?;
      assert AllKeysPresent(colls[1..]) by {
        forall k | 0 <= k < |colls[1..]|
          ensures colls[1..][k].docSummary.Some? && colls[1..][k].chunks.Some?
        {
          assert colls[1..][k] == colls[k + 1];
        }
      }
      var piece := SimplePiece(i, c.docSummary.value, c.chunks.value);
      var rest := SimpleBody(colls[1..], i + 1);
      assert SimpleLoop(colls, i, acc) == SimpleLoop(colls[1..], i + 1, acc + piece);
      assert SimpleBody(colls, i) == piece + rest;
      assert |acc + piece| >= |acc| > 0;
      SimpleLoopFromNonEmpty(colls[1..], i + 1, acc + piece);
      ConcatAssoc3(acc, piece, rest);
    } else {
      assert acc + "" == acc;
    }
  }

  /**
   * [] renders as ""; a list whose collections all carry both keys renders as
   * the preamble exactly once followed by the entries in input order; a
   * missing key anywhere raises.
   */
  lemma {:induction false} SimpleFormatShape(colls: seq<Collection>)
    ensures colls == [] ==> RagContextStringSimple(colls) == Some("")
    ensures colls != [] && AllKeysPresent(colls) ==> RagContextStringSimple(colls) == Some(SimplePreamble + SimpleBody(colls, 1))
    ensures !AllKeysPresent(colls) ==> RagContextStringSimple(colls) == None
  {
    if colls != [] && AllKeysPresent(colls) {
      var c := colls[0];
      var piece := SimplePiece(1, c.docSummary.value, c.chunks.value);
      assert SimplePreamble != [];
      SimpleLoopFromNonEmpty(colls[1..], 2, SimplePreamble + piece);
      ConcatAssoc3(SimplePreamble, piece, SimpleBody(colls[1..], 2));
    }
    if !AllKeysPresent(colls) {
      SimpleLoopRaisesOnMissingKey(colls, 1, "");
    }
  }

  lemma {:induction false} SimpleLoopRaisesOnMissingKey(colls: seq<Collection>, i: nat, acc: string)
    requires !AllKeysPresent(colls)
    ensures SimpleLoop(colls, i, acc) == None
    decreases |colls|
  {
    var c := colls[0];
    if !(c.docSummary.None? || c.chunks.None?) {
      var start := if acc == "" then SimplePreamble else acc;
      assert !AllKeysPresent(colls[1..]) by {
        var k :| 0 <= k < |colls| && !(colls[k].docSummary.Some? && colls[k].chunks.Some?);
        assert k != 0;
        assert colls[1..][k - 1] == colls[k];
      }
      SimpleLoopRaisesOnMissingKey(colls[1..], i + 1, start + SimplePiece(i, c.docSummary.value, c.chunks.value));
    }
  }
}

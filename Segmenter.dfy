/**
 * `process_content`: the single pass that groups the input lines into blocks.
 * `SegmentFrom` states, position by position, what the loop over the cursor
 * appends; `ProcessContent` is the loop itself, driving an `IterBack`.
 *
 * Modelled as the source is written: after a lone `"""` line the inner loop
 * keeps only the following lines that START with `"""`, and the first line
 * that does not is read and thrown away (there is no pushback in that branch).
 */
module Segmenter {
  import opened Wrappers
  import opened Strings
  import opened Strip
  import opened Cursor
  import opened Blocks
  import opened Documents

  /** `line.startswith('"""')`, spelled out character by character. */
  predicate OpensDocstring(line: string) {
    |line| >= 3 && line[0] == '"' && line[1] == '"' && line[2] == '"'
  }

  /** `line.endswith('"""')`, spelled out character by character. */
  predicate ClosesDocstring(line: string) {
    |line| >= 3 && line[|line| - 3] == '"' && line[|line| - 2] == '"' && line[|line| - 1] == '"'
  }

  /** The character-level tests are exactly Python's `startswith` and `endswith` with `DOCSTRING`. */
  lemma DocstringTests(line: string)
    ensures OpensDocstring(line) <==> StartsWith(line, DOCSTRING)
    ensures ClosesDocstring(line) <==> EndsWith(line, DOCSTRING)
  {
    if OpensDocstring(line) {
      assert line[..3] == DOCSTRING;
    }
    if ClosesDocstring(line) {
      assert line[|line| - 3..] == DOCSTRING;
    }
    if StartsWith(line, DOCSTRING) {
      assert line[..3][0] == '"' && line[..3][1] == '"' && line[..3][2] == '"';
    }
    if EndsWith(line, DOCSTRING) {
      assert line[|line| - 3..][0] == '"' && line[|line| - 3..][1] == '"' && line[|line| - 3..][2] == '"';
    }
  }

  /** `is_markdown_block`: the line is exactly `"""`. */
  predicate IsMarkdownBlock(line: string) {
    OpensDocstring(line) && |line| == 3
  }

  /** `is_markdown_oneliner`: `"""` at both ends, with at least one character between. */
  predicate IsMarkdownOneliner(line: string) {
    OpensDocstring(line) && ClosesDocstring(line) && |line| > 6
  }

  /** The text of a one-liner: one leading and one trailing `"""` removed. */
  function OnelinerText(line: string): (text: string)
    requires IsMarkdownOneliner(line)
    ensures DOCSTRING + text + DOCSTRING == line
    ensures |text| >= 1
  {
    DocstringTests(line);
    RemoveSuffix(RemovePrefix(line, DOCSTRING), DOCSTRING)
  }

  /** Where the loop after a lone `"""` stops: the first line from `k` on not starting with `"""`, or the end. */
  function DocstringRunEnd(ls: seq<string>, k: nat): (j: nat)
    requires k <= |ls|
    ensures k <= j <= |ls|
    ensures forall m :: k <= m < j ==> OpensDocstring(ls[m])
    ensures j < |ls| ==> !OpensDocstring(ls[j])
    decreases |ls| - k
  {
    if k == |ls| || !OpensDocstring(ls[k]) then k else DocstringRunEnd(ls, k + 1)
  }

  /** Where a code block ends: the first line from `k` on starting with `"""`, or the end. */
  function CodeRunEnd(ls: seq<string>, k: nat): (j: nat)
    requires k <= |ls|
    ensures k <= j <= |ls|
    ensures forall m :: k <= m < j ==> !OpensDocstring(ls[m])
    ensures j < |ls| ==> OpensDocstring(ls[j])
    decreases |ls| - k
  {
    if k == |ls| || OpensDocstring(ls[k]) then k else CodeRunEnd(ls, k + 1)
  }

  /**
   * What one pass of the outer loop reads from position `i`: whether it
   * becomes a Code block, the lines handed to the block's constructor, and
   * the position the next pass reads first.
   */
  datatype Piece = Piece(code: bool, raw: seq<string>, next: nat)

  /** The block a piece becomes: `Code(raw)` or `Markdown(raw)`, both stripping `raw`. */
  function Build(p: Piece): (b: Block) {
    if p.code then NewCode(p.raw) else NewMarkdown(p.raw)
  }

  /**
   * The branch taken on line `i`. A one-liner (recognised first) consumes its line;
   * a lone `"""` consumes the run of lines starting with `"""` after it and
   * one more line; any other line starts a code block that runs up to the
   * next line starting with `"""`, which is pushed back and read next.
   */
  function PieceAt(ls: seq<string>, i: nat): (p: Piece)
    requires i < |ls|
    ensures i < p.next <= |ls| + 1
  {
    var line := ls[i];
    if IsMarkdownOneliner(line) then
      Piece(false, [OnelinerText(line)], i + 1)
    else if IsMarkdownBlock(line) then
      var j := DocstringRunEnd(ls, i + 1);
      Piece(false, ls[i + 1..j], j + 1)
    else
      var j := CodeRunEnd(ls, i + 1);
      Piece(true, ls[i..j], j)
  }

  /** The blocks appended, in order, once the cursor stands at position `i` of `ls`. */
  function SegmentFrom(ls: seq<string>, i: nat): (blocks: seq<Block>)
    decreases |ls| + 1 - i
  {
    if i >= |ls| then [] else [Build(PieceAt(ls, i))] + SegmentFrom(ls, PieceAt(ls, i).next)
  }

  /** The blocks of the document `process_content` builds from the raw lines of a file. */
  function Segment(content: seq<string>): (blocks: seq<Block>) {
    SegmentFrom(Lines(content), 0)
  }

  /** The end of a `"""`-run is the only position that bounds the run from `k` and breaks it. */
  lemma DocstringRunEndIs(ls: seq<string>, k: nat, j: nat)
    requires k <= j <= |ls|
    requires forall m :: k <= m < j ==> OpensDocstring(ls[m])
    requires j < |ls| ==> !OpensDocstring(ls[j])
    ensures j == DocstringRunEnd(ls, k)
  {
  }

  /** The end of a code run is the only position that bounds the run from `k` and breaks it. */
  lemma CodeRunEndIs(ls: seq<string>, k: nat, j: nat)
    requires k <= j <= |ls|
    requires forall m :: k <= m < j ==> !OpensDocstring(ls[m])
    requires j < |ls| ==> OpensDocstring(ls[j])
    ensures j == CodeRunEnd(ls, k)
  {
  }

  /** Collecting the line at `b` extends the collected slice by one. */
  lemma SliceExtend(ls: seq<string>, a: nat, b: nat)
    requires a <= b < |ls|
    ensures ls[a..b] + [ls[b]] == ls[a..b + 1]
  {
  }

  /** Appending a block to the document moves it from the blocks still due to the blocks built. */
  lemma AppendStep(before: seq<Block>, b: Block, rest: seq<Block>)
    ensures (before + [b]) + rest == before + ([b] + rest)
  {
  }

  /**
   * The inner loop after a lone `"""`: collects the lines that start with
   * `"""`; the first line that does not is read too, and dropped. Running
   * out of lines ends the loop quietly.
   */
  method CollectDocstringRun(cursor: IterBack, ghost ls: seq<string>) returns (items: seq<string>)
    requires cursor.Valid() && ls == cursor.lines && cursor.index <= |ls|
    modifies cursor`index
    ensures cursor.index == DocstringRunEnd(ls, old(cursor.index)) + 1
    ensures items == ls[old(cursor.index)..cursor.index - 1]
  {
    ghost var k := cursor.index;
    items := [];
    var line := cursor.Next();
    while line.Some? && OpensDocstring(line.value)
      invariant cursor.Valid() && k + 1 <= cursor.index <= |ls| + 1
      invariant items == ls[k..cursor.index - 1]
      invariant forall m :: k <= m < cursor.index - 1 ==> OpensDocstring(ls[m])
      invariant line.Some? <==> cursor.index - 1 < |ls|
      invariant line.Some? ==> line.value == ls[cursor.index - 1]
      decreases |ls| + 1 - cursor.index
    {
      SliceExtend(ls, k, cursor.index - 1);
      items := items + [line.value];
      line := cursor.Next();
    }
    DocstringRunEndIs(ls, k, cursor.index - 1);
  }

  /**
   * The inner loop of a code block: collects `first` and the lines after it
   * up to the next one starting with `"""` (read, but not collected), or to
   * the end of the input.
   */
  method CollectCodeRun(cursor: IterBack, ghost ls: seq<string>, first: string) returns (items: seq<string>)
    requires cursor.Valid() && ls == cursor.lines && cursor.index <= |ls|
    modifies cursor`index
    ensures cursor.index == CodeRunEnd(ls, old(cursor.index)) + 1
    ensures items == [first] + ls[old(cursor.index)..cursor.index - 1]
  {
    ghost var k := cursor.index;
    items := [first];
    var line := cursor.Next();
    while line.Some? && !OpensDocstring(line.value)
      invariant cursor.Valid() && k + 1 <= cursor.index <= |ls| + 1
      invariant items == [first] + ls[k..cursor.index - 1]
      invariant forall m :: k <= m < cursor.index - 1 ==> !OpensDocstring(ls[m])
      invariant line.Some? <==> cursor.index - 1 < |ls|
      invariant line.Some? ==> line.value == ls[cursor.index - 1]
      decreases |ls| + 1 - cursor.index
    {
      SliceExtend(ls, k, cursor.index - 1);
      items := items + [line.value];
      line := cursor.Next();
    }
    CodeRunEndIs(ls, k, cursor.index - 1);
  }

  /**
   * One pass of the loop of `process_content`: `line`, just read at position
   * `i`, decides the branch; the branch reads what it needs from the cursor
   * and appends one block to the document.
   */
  method ProcessLine(document: Document, cursor: IterBack, line: string, ghost ls: seq<string>, ghost i: nat)
    requires cursor.Valid() && ls == cursor.lines && i < |ls| && line == ls[i] && cursor.index == i + 1
    modifies document, cursor`index
    ensures document.data == old(document.data) + [Build(PieceAt(ls, i))]
    ensures cursor.index == PieceAt(ls, i).next
  {
    if IsMarkdownOneliner(line) {
      var text := OnelinerText(line);
      var lines := StripList([text]);
      document.Append(Markdown(lines));
    } else if IsMarkdownBlock(line) {
      var items := CollectDocstringRun(cursor, ls);
      var lines := StripList(items);
      document.Append(Markdown(lines));
    } else {
      var items := CollectCodeRun(cursor, ls, line);
      var lines := StripList(items);
      document.Append(Code(lines));
      cursor.Backward();
      assert items == ls[i..CodeRunEnd(ls, i + 1)];
    }
  }

  /** `process_content`. */
  method ProcessContent(content: seq<string>) returns (document: Document)
    ensures fresh(document)
    ensures document.data == Segment(content)
  {
    document := new Document();
    var cursor := new IterBack(content);
    ghost var ls := cursor.lines;
    while true
      invariant fresh(document) && fresh(cursor)
      invariant cursor.Valid() && cursor.lines == ls
      invariant cursor.index <= |ls| + 1
      invariant document.data + SegmentFrom(ls, cursor.index) == SegmentFrom(ls, 0)
      decreases |ls| + 2 - cursor.index
    {
      var next := cursor.Next();
      if next.None? {
        break;
      }
      ghost var i, before := cursor.index - 1, document.data;
      ProcessLine(document, cursor, next.value, ls, i);
      AppendStep(before, Build(PieceAt(ls, i)), SegmentFrom(ls, PieceAt(ls, i).next));
    }
  }
}

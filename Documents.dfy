/**
 * `Document`: the blocks in reading order, its title and its Markdown rendering
 * as a list of output tokens (every rendered line is followed by a newline
 * token, every block by one more).
 */
module Documents {
  import opened Strings
  import opened Strip
  import opened Blocks

  /** The tokens one rendered line list contributes: each line followed by a newline. */
  function Interleave(lines: seq<string>): (tokens: seq<string>) {
    if lines == [] then [] else [lines[0], NEWLINE] + Interleave(lines[1..])
  }

  /** The tokens one block contributes: nothing when it is falsy. */
  function BlockTokens(b: Block): (tokens: seq<string>) {
    if b.Truthy() then Interleave(b.Render()) + [NEWLINE] else []
  }

  /** `to_markdown` on a list of blocks, block by block in insertion order. */
  function MarkdownOf(blocks: seq<Block>): (tokens: seq<string>) {
    if blocks == [] then [] else BlockTokens(blocks[0]) + MarkdownOf(blocks[1..])
  }

  /** The number of tokens the source promises: `2 * |render(b)| + 1` per truthy block. */
  function TokenCount(blocks: seq<Block>): (n: nat) {
    if blocks == [] then 0
    else
      var b := blocks[0];
      (if b.Truthy() then 2 * |b.Render()| + 1 else 0) + TokenCount(blocks[1..])
  }

  /** When `title()` does not fail: a leading Markdown block has a first line to look at. */
  predicate TitleDefined(blocks: seq<Block>) {
    |blocks| > 0 && blocks[0].Markdown? ==> |blocks[0].lines| > 0
  }

  class Document {
    var data: seq<Block>

    constructor ()
      ensures data == []
    {
      data := [];
    }

    /** `append`. */
    method Append(item: Block)
      modifies this
      ensures data == old(data) + [item]
    {
      data := data + [item];
    }

    /**
     * `title`: non-empty exactly when the first block is Markdown and its first
     * line starts with "# "; it is then that line without its first character.
     */
    function Title(): (t: string)
      reads this
      requires TitleDefined(data)
      ensures t != "" <==> |data| > 0 && data[0].Markdown? && StartsWith(data[0].lines[0], "# ")
      ensures t != "" ==> "#" + t == data[0].lines[0] && t[0] == ' '
    {
      if |data| == 0 then ""
      else
        var block := data[0];
        if !block.Markdown? then ""
        else
          var firstLine := block.Render()[0];
          if !StartsWith(firstLine, "# ") then "" else firstLine[1..]
    }

    /** `to_markdown`. */
    method ToMarkdown() returns (result: seq<string>)
      ensures result == MarkdownOf(data)
    {
      var blocks := data;
      result := [];
      for n := 0 to |blocks|
        invariant result == MarkdownOf(blocks[..n])
      {
        var block := blocks[n];
        ghost var done := result;
        if block.Truthy() {
          var rendered := block.Render();
          for m := 0 to |rendered|
            invariant result == done + Interleave(rendered[..m])
          {
            LineStep(done, rendered, m);
            result := result + [rendered[m]];
            result := result + [NEWLINE];
          }
          assert rendered[..|rendered|] == rendered;
          result := result + [NEWLINE];
        }
        BlockStep(blocks, n, done, result);
      }
      assert blocks[..|blocks|] == blocks;
    }
  }

  /** One pass of the inner loop of `ToMarkdown`: line `m` and a newline are appended. */
  lemma LineStep(done: seq<string>, rendered: seq<string>, m: nat)
    requires m < |rendered|
    ensures done + Interleave(rendered[..m]) + [rendered[m]] + [NEWLINE] == done + Interleave(rendered[..m + 1])
  {
    assert rendered[..m + 1] == rendered[..m] + [rendered[m]];
    InterleaveSnoc(rendered[..m], rendered[m]);
  }

  /** One pass of the outer loop of `ToMarkdown`: block `n`'s tokens are appended. */
  lemma BlockStep(blocks: seq<Block>, n: nat, done: seq<string>, result: seq<string>)
    requires n < |blocks| && done == MarkdownOf(blocks[..n])
    requires result == done + BlockTokens(blocks[n])
    ensures result == MarkdownOf(blocks[..n + 1])
  {
    assert blocks[..n + 1] == blocks[..n] + [blocks[n]];
    MarkdownOfSnoc(blocks[..n], blocks[n]);
  }

  /** Interleaving one more line appends it and a newline. */
  lemma {:induction false} InterleaveSnoc(lines: seq<string>, line: string)
    ensures Interleave(lines + [line]) == Interleave(lines) + [line, NEWLINE]
  {
    if lines == [] {
      assert [line][1..] == [];
    } else {
      assert (lines + [line])[1..] == lines[1..] + [line];
      InterleaveSnoc(lines[1..], line);
    }
  }

  /** Each rendered line lands at an even position, each followed by a newline token. */
  lemma {:induction false} InterleaveAt(lines: seq<string>, k: nat)
    requires k < |lines|
    ensures |Interleave(lines)| == 2 * |lines|
    ensures Interleave(lines)[2 * k] == lines[k] && Interleave(lines)[2 * k + 1] == NEWLINE
  {
    InterleaveLength(lines);
    if k > 0 {
      InterleaveAt(lines[1..], k - 1);
    }
  }

  lemma {:induction false} InterleaveLength(lines: seq<string>)
    ensures |Interleave(lines)| == 2 * |lines|
  {
    if lines != [] {
      InterleaveLength(lines[1..]);
    }
  }

  /**
   * What one truthy block contributes, whatever it renders: two tokens per
   * rendered line and one closing newline token.
   */
  lemma BlockTokensShape(b: Block)
    requires b.Truthy()
    ensures |BlockTokens(b)| == 2 * |b.Render()| + 1
    ensures BlockTokens(b)[|BlockTokens(b)| - 1] == NEWLINE
  {
    InterleaveLength(b.Render());
  }

  /** Where the rendered lines of a truthy block go: line `k` at `2k`, followed by a newline token. */
  lemma BlockTokensAt(b: Block, k: nat)
    requires b.Truthy() && k < |b.Render()|
    ensures 2 * k + 1 < |BlockTokens(b)|
    ensures BlockTokens(b)[2 * k] == b.Render()[k] && BlockTokens(b)[2 * k + 1] == NEWLINE
  {
    BlockTokensShape(b);
    InterleaveAt(b.Render(), k);
  }

  /**
   * A Code block of empty strings renders nothing but is truthy, so it still
   * contributes its closing newline: a blank separator line in the output.
   */
  lemma BlankCodeBlockTokens(raw: seq<string>)
    requires |raw| > 0 && AllEmpty(raw)
    ensures BlockTokens(NewCode(raw)) == [NEWLINE]
  {
    BlankBlocks(raw);
  }

  /** Rendering a concatenation renders the two parts one after the other. */
  lemma {:induction false} MarkdownOfConcat(a: seq<Block>, b: seq<Block>)
    ensures MarkdownOf(a + b) == MarkdownOf(a) + MarkdownOf(b)
  {
    if a == [] {
      assert a + b == b;
    } else {
      assert (a + b)[1..] == a[1..] + b;
      MarkdownOfConcat(a[1..], b);
    }
  }

  /** Appending one block appends its tokens. */
  lemma MarkdownOfSnoc(blocks: seq<Block>, b: Block)
    ensures MarkdownOf(blocks + [b]) == MarkdownOf(blocks) + BlockTokens(b)
  {
    MarkdownOfConcat(blocks, [b]);
    assert [b][1..] == [];
  }

  /** A falsy block contributes nothing: it may as well not be there. */
  lemma FalsyBlockSkipped(before: seq<Block>, b: Block, after: seq<Block>)
    requires !b.Truthy()
    ensures MarkdownOf(before + [b] + after) == MarkdownOf(before + after)
  {
    MarkdownOfConcat(before + [b], after);
    MarkdownOfSnoc(before, b);
    MarkdownOfConcat(before, after);
  }

  /** The output has `2 * |render(b)| + 1` tokens per truthy block and none for a falsy one. */
  lemma {:induction false} MarkdownLength(blocks: seq<Block>)
    ensures |MarkdownOf(blocks)| == TokenCount(blocks)
  {
    if blocks != [] {
      MarkdownLength(blocks[1..]);
      InterleaveLength(blocks[0].Render());
    }
  }

  /** A document titled `t` has its Markdown output open with the heading line `#` + `t`. */
  lemma TitleOpensMarkdown(d: Document)
    requires TitleDefined(d.data) && d.Title() != ""
    ensures |MarkdownOf(d.data)| > 0 && MarkdownOf(d.data)[0] == "#" + d.Title()
  {
    InterleaveAt(d.data[0].Render(), 0);
  }
}

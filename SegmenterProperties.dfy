/**
 * What the segmenter guarantees about the documents it builds, proved on
 * `SegmentFrom`, the function `ProcessContent` is proved to compute.
 */
module SegmenterProperties {
  import opened Strings
  import opened Strip
  import opened Cursor
  import opened Blocks
  import opened Documents
  import opened Segmenter

  /** `is_markdown_block` holds exactly for the line `"""`, and never together with `is_markdown_oneliner`. */
  lemma ClassifiersAgree(line: string)
    ensures IsMarkdownBlock(line) <==> line == DOCSTRING
    ensures IsMarkdownOneliner(line) <==> StartsWith(line, DOCSTRING) && EndsWith(line, DOCSTRING) && |line| > 6
    ensures !(IsMarkdownBlock(line) && IsMarkdownOneliner(line))
  {
    DocstringTests(line);
    if IsMarkdownBlock(line) {
      assert line == DOCSTRING;
    }
  }

  /** Lines of six quotes, or an opening `"""` without a closing one, are neither marker: they start Code blocks. */
  lemma QuoteRunsStartCode()
    ensures !IsMarkdownBlock("\"\"\"\"\"\"") && !IsMarkdownOneliner("\"\"\"\"\"\"")
    ensures !IsMarkdownBlock("\"\"\"abc") && !IsMarkdownOneliner("\"\"\"abc")
  {
  }

  /** A one-liner becomes the single-line block `Markdown([text])` and nothing further is read. */
  lemma OnelinerBlock(ls: seq<string>, i: nat)
    requires i < |ls| && IsMarkdownOneliner(ls[i])
    ensures SegmentFrom(ls, i) == [Markdown([OnelinerText(ls[i])])] + SegmentFrom(ls, i + 1)
  {
    var text := OnelinerText(ls[i]);
    assert Start([text]) == 0 && End([text]) == 1;
    assert Stripped([text]) == [text];
  }

  /**
   * A lone `"""` at `i` and the lines after it that start with `"""`, up to
   * `j`, make one Markdown block; the line at `j` that breaks the run is read
   * too, and the next pass starts after it.
   */
  lemma MarkerRegionBlock(ls: seq<string>, i: nat, j: nat)
    requires i < j <= |ls| && IsMarkdownBlock(ls[i])
    requires forall m :: i < m < j ==> OpensDocstring(ls[m])
    requires j < |ls| ==> !OpensDocstring(ls[j])
    ensures SegmentFrom(ls, i) == [NewMarkdown(ls[i + 1..j])] + SegmentFrom(ls, j + 1)
  {
    DocstringRunEndIs(ls, i + 1, j);
  }

  /**
   * A line that is neither marker starts a Code block holding it and every
   * following line up to `j`, the next line starting with `"""` (or the end);
   * the next pass starts at `j`.
   */
  lemma CodeRegionBlock(ls: seq<string>, i: nat, j: nat)
    requires i < j <= |ls| && !IsMarkdownOneliner(ls[i]) && !IsMarkdownBlock(ls[i])
    requires forall m :: i < m < j ==> !OpensDocstring(ls[m])
    requires j < |ls| ==> OpensDocstring(ls[j])
    ensures SegmentFrom(ls, i) == [NewCode(ls[i..j])] + SegmentFrom(ls, j)
  {
    CodeRunEndIs(ls, i + 1, j);
  }

  /** Each pass consumes at least one line, so there are at most as many blocks as lines left. */
  lemma {:induction false} SegmentSize(ls: seq<string>, i: nat)
    ensures |SegmentFrom(ls, i)| <= if i < |ls| then |ls| - i else 0
    decreases |ls| + 1 - i
  {
    if i < |ls| {
      SegmentSize(ls, PieceAt(ls, i).next);
    }
  }

  /** What the segmenter guarantees of each block it emits. */
  predicate Shaped(b: Block) {
    && WellFormed(b)
    && (b.Code? ==> forall m :: 0 < m < |b.lines| ==> !OpensDocstring(b.lines[m]))
    && (b.Markdown? ==> |b.lines| == 1 || forall m :: 0 <= m < |b.lines| ==> OpensDocstring(b.lines[m]))
  }

  /** Stripping keeps a property every line has. */
  lemma StrippedAllOpen(raw: seq<string>)
    requires forall m :: 0 <= m < |raw| ==> OpensDocstring(raw[m])
    ensures forall m :: 0 <= m < |Stripped(raw)| ==> OpensDocstring(Stripped(raw)[m])
  {
    StrippedIsTrimmedSlice(raw);
    var a, b :| 0 <= a <= b <= |raw| && Stripped(raw) == raw[a..b] && Trims(raw, a, b);
    forall m | 0 <= m < b - a
      ensures OpensDocstring(Stripped(raw)[m])
    {
      assert Stripped(raw)[m] == raw[a + m];
    }
  }

  /** Stripping keeps a property every line but the first has. */
  lemma StrippedRestClosed(raw: seq<string>)
    requires forall m :: 0 < m < |raw| ==> !OpensDocstring(raw[m])
    ensures forall m :: 0 < m < |Stripped(raw)| ==> !OpensDocstring(Stripped(raw)[m])
  {
    StrippedIsTrimmedSlice(raw);
    var a, b :| 0 <= a <= b <= |raw| && Stripped(raw) == raw[a..b] && Trims(raw, a, b);
    forall m | 0 < m < b - a
      ensures !OpensDocstring(Stripped(raw)[m])
    {
      assert Stripped(raw)[m] == raw[a + m];
    }
  }

  /**
   * A Markdown block holds one one-liner's text, or only lines starting with
   * `"""`; a Code block has no line starting with `"""` after its first; and
   * stripping any block again changes nothing.
   */
  lemma PieceShaped(ls: seq<string>, i: nat)
    requires i < |ls|
    ensures Shaped(Build(PieceAt(ls, i)))
  {
    var p := PieceAt(ls, i);
    ConstructedIsWellFormed(p.raw);
    if IsMarkdownOneliner(ls[i]) {
      StrippedIsTrimmedSlice(p.raw);
      assert |p.raw[0]| > 0;
    } else if IsMarkdownBlock(ls[i]) {
      var j := DocstringRunEnd(ls, i + 1);
      assert forall m :: 0 <= m < |p.raw| ==> p.raw[m] == ls[i + 1 + m];
      StrippedAllOpen(p.raw);
    } else {
      var j := CodeRunEnd(ls, i + 1);
      assert forall m :: 0 < m < |p.raw| ==> p.raw[m] == ls[i + m];
      StrippedRestClosed(p.raw);
    }
  }

  /** Every block of the document has the shape `Shaped` describes. */
  lemma {:induction false} SegmentShaped(ls: seq<string>, i: nat)
    ensures forall k :: 0 <= k < |SegmentFrom(ls, i)| ==> Shaped(SegmentFrom(ls, i)[k])
    decreases |ls| + 1 - i
  {
    if i < |ls| {
      PieceShaped(ls, i);
      SegmentShaped(ls, PieceAt(ls, i).next);
    }
  }

  /**
   * The source's behaviour after a lone `"""` whose next line does not start
   * with `"""`: an empty Markdown block, and that next line is lost.
   */
  lemma MarkerDropsNextLine(ls: seq<string>, i: nat)
    requires i + 1 < |ls| && IsMarkdownBlock(ls[i]) && !OpensDocstring(ls[i + 1])
    ensures SegmentFrom(ls, i) == [Markdown([])] + SegmentFrom(ls, i + 2)
  {
    MarkerRegionBlock(ls, i, i + 1);
    assert ls[i + 1..i + 1] == [];
    StrippedIsTrimmedSlice([]);
  }

  /** Without any line starting with `"""`, the whole input is one Code block. */
  lemma NoDocstringIsOneCodeBlock(ls: seq<string>)
    requires |ls| > 0 && forall m :: 0 <= m < |ls| ==> !OpensDocstring(ls[m])
    ensures SegmentFrom(ls, 0) == [NewCode(ls)]
  {
    CodeRegionBlock(ls, 0, |ls|);
    assert ls[0..|ls|] == ls;
  }

  /**
   * A file that opens with a lone `"""` followed by prose (as the repository's
   * own Flask example does) starts with an empty Markdown block, on which
   * `title()` fails.
   */
  lemma OpeningMarkerBreaksTitle(content: seq<string>)
    requires |content| >= 2
    requires Lines(content)[0] == DOCSTRING && !OpensDocstring(Lines(content)[1])
    ensures |Segment(content)| > 0 && Segment(content)[0] == Markdown([])
    ensures !TitleDefined(Segment(content))
  {
    ClassifiersAgree(Lines(content)[0]);
    MarkerDropsNextLine(Lines(content), 0);
  }

  /** The first two lines of the Flask example. */
  lemma FlaskOpening(rest: seq<string>)
    ensures !TitleDefined(Segment(["\"\"\"\n", "# A Minimal Application\n"] + rest))
  {
    var content := ["\"\"\"\n", "# A Minimal Application\n"] + rest;
    LinesDropNewline(content, 0);
    LinesDropNewline(content, 1);
    assert EndsWith(content[0], NEWLINE);
    assert EndsWith(content[1], NEWLINE);
    assert Lines(content)[0] == DOCSTRING;
    assert Lines(content)[1] == "# A Minimal Application";
    OpeningMarkerBreaksTitle(content);
  }

  /** A one-liner on its own: one Markdown block holding the text between the delimiters. */
  lemma OnelinerExample()
    ensures SegmentFrom(["\"\"\"Hello\"\"\""], 0) == [Markdown(["Hello"])]
  {
    var ls := ["\"\"\"Hello\"\"\""];
    assert IsMarkdownOneliner(ls[0]);
    assert OnelinerText(ls[0]) == "Hello";
    OnelinerBlock(ls, 0);
  }

  /**
   * Code, a `"""` region of prose, then code: the prose line is dropped after
   * each lone `"""`, so neither "Explanation." nor "y = 2" reaches the document.
   */
  lemma ProseRegionExample()
    ensures SegmentFrom(["x = 1", "\"\"\"", "Explanation.", "\"\"\"", "y = 2"], 0)
         == [Code(["x = 1"]), Markdown([]), Markdown([])]
  {
    var ls := ["x = 1", "\"\"\"", "Explanation.", "\"\"\"", "y = 2"];
    assert SegmentFrom(ls, 5) == [];
    MarkerDropsNextLine(ls, 3);
    assert SegmentFrom(ls, 3) == [Markdown([])];
    MarkerDropsNextLine(ls, 1);
    assert SegmentFrom(ls, 1) == [Markdown([]), Markdown([])];
    CodeRegionBlock(ls, 0, 1);
    assert ls[0..1] == ["x = 1"];
    assert Start(["x = 1"]) == 0 && End(["x = 1"]) == 1;
    assert Stripped(["x = 1"]) == ["x = 1"];
  }

  /**
   * A two-line `"""` region: the first prose line is dropped, the second
   * becomes code, and the closing `"""` opens an empty Markdown block.
   */
  lemma ShortRegionExample()
    ensures SegmentFrom(["\"\"\"", "a", "b", "\"\"\""], 0) == [Markdown([]), Code(["b"]), Markdown([])]
  {
    var ls := ["\"\"\"", "a", "b", "\"\"\""];
    MarkerRegionBlock(ls, 3, 4);
    assert ls[4..4] == [];
    assert SegmentFrom(ls, 3) == [Markdown([])];
    CodeRegionBlock(ls, 2, 3);
    assert ls[2..3] == ["b"];
    assert Start(["b"]) == 0 && End(["b"]) == 1;
    assert Stripped(["b"]) == ["b"];
    assert SegmentFrom(ls, 2) == [Code(["b"]), Markdown([])];
    MarkerDropsNextLine(ls, 0);
  }
}

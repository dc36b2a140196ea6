# pynote, modelled in Dafny

pynote turns a Python source file into a notebook-like Markdown document.
Lines inside `"""` regions are meant to be prose and every other run of lines code.
What the code as written does with a `"""` region differs (see below), and the model follows the code.
This project models and proves the core of `pynote.py`:

- `strip_list`, which trims empty strings off both ends of a list of lines (module `Strip`);
- the pushback cursor `IterBack` (module `Cursor`), a class whose `index` field moves;
- the sum type `Block` = `Code` | `Markdown`, with `render`, `__bool__` and `is_empty` (module `Blocks`);
- `Document`, with `append`, `title` and `to_markdown` (module `Documents`);
- the classifiers `is_markdown_block` and `is_markdown_oneliner`, and `process_content`, the loop that cuts the lines into blocks (module `Segmenter`);
- what the resulting documents look like (module `SegmenterProperties`).

Where the source mutates state, the model does too.
`IterBack` and `Document` are classes.
`ToMarkdown` and `ProcessContent` are methods with loops.
`StripList` has no loop of its own: it calls `FirstNotEmptyElement` twice, on the list and on its reverse, and that method's loop is the nested `get_first_not_empty_element`.
Each method is proved equal to a functional specification:
`MarkdownOf`, `Stripped`, and `Segment` with its per-branch `PieceAt`.
The lemmas are about those specifications.

Behaviour of the code as written that the model keeps:

- After a lone `"""` line, the code keeps only the following lines that *start* with `"""`.
  The first line that does not is read and discarded, with no `backward()` in that branch.
  So a `"""` / prose / `"""` region gives an empty `Markdown([])` block, and its first prose line is lost.
  Any remaining lines of the region up to the closing `"""` become a Code block, and the closing `"""` opens another Markdown block.
  For example `"""`, `a`, `b`, `"""` gives `[Markdown([]), Code(["b"]), Markdown([])]`.
  The prose regions of example/flask.py are evidently meant to be rendered as Markdown, and are not.
  `ShortRegionExample` and `ProseRegionExample` trace such inputs.
- A line counts as empty when it is the empty string, which is Python's truthiness of `str`.
  Whitespace-only lines are not empty. `is_empty` and `strip_list` test exactly this.
- A string starts (ends) with `"""` in the sense of `str.startswith` (`str.endswith`).
  `OpensDocstring` and `ClosesDocstring` spell these tests out per character.
  `DocstringTests` proves them equal to `StartsWith`/`EndsWith`.

The input of `process_content` is the list `f.readlines()` returns, as a parameter.
Line `k`, as the cursor yields it, is element `k` with one trailing `"\n"` removed (`Cursor.Lines`).

## Model

| member | source | states |
|---|---|---|
| Strings.StartsWith | pynote.py:163 | `str.startswith`: the string's first `len(prefix)` characters are the prefix; `DocstringTests` ties it to the per-character test and `Title` uses it |
| Strings.EndsWith | pynote.py:167 | `str.endswith`: the string's last `len(suffix)` characters are the suffix; `DocstringTests` ties it to the per-character test |
| Strings.RemovePrefix | pynote.py:183 | `str.removeprefix`: when the prefix is present, prefix + result is the input; otherwise the input is returned unchanged |
| Strings.RemoveSuffix | pynote.py:43 | `str.removesuffix`: when the suffix is present, result + suffix is the input; otherwise the input is returned unchanged |
| Strip.Reversed | pynote.py:22 | `data[::-1]`: same length, element `k` is element `len-1-k` of the input |
| Strip.StartFromSpec | pynote.py:13-16 | the scan from `i` passes only empty strings and stops on a non-empty one, or at the end |
| Strip.EndBeforeSpec | pynote.py:22-24 | the backward scan passes only empty strings and stops just after a non-empty one, or at 0 |
| Strip.Bounds | pynote.py:12-26 | everything before `Start` and from `End` on is empty; `s[Start]` and `s[End-1]` are non-empty when they exist |
| Strip.StartBeforeEnd | pynote.py:12-26 | on a list with a non-empty element, the kept slice is non-empty and begins and ends on non-empty elements |
| Strip.FirstNotEmptyElement | pynote.py:13-16 | returns None iff every element is empty; otherwise returns the index of the first non-empty element, with everything before it empty |
| Strip.Stripped | pynote.py:12-26 | what `strip_list` returns: the list from its first to its last non-empty element, or the list itself when it has none; `StrippedIsTrimmedSlice` and `StrippedIdempotent` state its properties |
| Strip.StripList | pynote.py:12-26 | the two searches and slices, each guarded by `if idx:`, compute `Stripped(data)` |
| Strip.StrippedIsTrimmedSlice | pynote.py:12-26 | the result is a slice `s[a..b]` of the input with only empty strings cut off; an all-empty input (including `[]`) comes back unchanged; otherwise the result starts and ends with a non-empty element and keeps the interior empties |
| Strip.StrippedIdempotent | pynote.py:12-26 | stripping twice equals stripping once |
| Cursor.Lines | pynote.py:43 | one cursor line per raw element |
| Cursor.LinesDropNewline | pynote.py:42-43 | line `k` is raw element `k` less one trailing newline when it has one, and the element itself otherwise |
| Cursor.IterBack.constructor | pynote.py:30-33 | the cursor holds the list, caches its length, and starts at index 0 |
| Cursor.IterBack.Next | pynote.py:38-43 | the index always grows by one; below `len` the result is raw element `index` without its trailing newline; at or past `len` the result is exhaustion (None) |
| Cursor.IterBack.Backward | pynote.py:45-46 | the index goes back by exactly one |
| Blocks.Block.Render | pynote.py:62-81 | Markdown renders its lines unchanged; Code renders `[]` iff all its lines are empty; otherwise it renders "```py", the lines, "```" |
| Blocks.Block.Truthy | pynote.py:59-60 | `__bool__`: the block has at least one line; `TruthyIffRawNonEmpty` relates it to the constructor's argument |
| Blocks.Block.IsEmpty | pynote.py:62-63 | `is_empty`: every line is the empty string; `Render` is proved to give `[]` for a Code block exactly when it holds |
| Blocks.NewCode | pynote.py:50-51 | `Code(lines)` stores `strip_list(lines)` |
| Blocks.NewMarkdown | pynote.py:50-51 | `Markdown(lines)` stores `strip_list(lines)` |
| Blocks.ConstructedIsWellFormed | pynote.py:50-51 | a freshly constructed block's lines are unchanged by stripping again |
| Blocks.TruthyIffRawNonEmpty | pynote.py:59-60 | a constructed block is truthy iff the list given to its constructor is non-empty |
| Blocks.BlankBlocks | pynote.py:59-74 | from a non-empty list of empty strings, Code is truthy but renders nothing, while Markdown renders the empties |
| Documents.Document.constructor | pynote.py:85-86 | a new document has no blocks |
| Documents.Document.Append | pynote.py:102-103 | the block is added at the end and nothing else changes |
| Documents.Document.Title | pynote.py:88-100 | non-empty iff there is a first block, it is Markdown, and its first line starts with "# "; then the title is that line minus its first character, so it keeps the leading space |
| Documents.MarkdownOf | pynote.py:105-113 | the tokens `to_markdown` returns, block by block; `MarkdownOfConcat`, `FalsyBlockSkipped`, `MarkdownLength`, `BlockTokensShape`, `BlockTokensAt` and `BlankCodeBlockTokens` state its properties |
| Documents.Document.ToMarkdown | pynote.py:105-113 | the nested loops produce exactly `MarkdownOf(data)` |
| Documents.InterleaveAt | pynote.py:109-111 | each rendered line lands at an even position and is followed by a newline token |
| Documents.BlockTokensShape | pynote.py:108-112 | every truthy block, including a Code block that renders nothing, contributes `2 * len(render) + 1` tokens, the last of them a newline |
| Documents.BlockTokensAt | pynote.py:109-111 | in a truthy block's tokens, rendered line `k` lies within the tokens at `2k`, and a newline follows at `2k+1` |
| Documents.BlankCodeBlockTokens | pynote.py:108-112 | a Code block built from a non-empty list of empty strings contributes exactly one newline token, a blank separator line |
| Documents.MarkdownOfConcat | pynote.py:107 | blocks are rendered in insertion order: output of a concatenation is the concatenation of outputs |
| Documents.FalsyBlockSkipped | pynote.py:108 | a falsy block contributes nothing, so removing it leaves the output unchanged |
| Documents.MarkdownLength | pynote.py:105-113 | the output length is the sum of `2 * len(render(b)) + 1` over the truthy blocks |
| Documents.TitleOpensMarkdown | pynote.py:88-100 | a document with a non-empty title `t` has its Markdown output start with the heading line "#" + `t` |
| Segmenter.DocstringTests | pynote.py:162-167 | the per-character tests equal `startswith('"""')` and `endswith('"""')` |
| Segmenter.OnelinerText | pynote.py:183 | `"""` + text + `"""` is the line, and the text is non-empty |
| Segmenter.DocstringRunEnd | pynote.py:188-189 | the run collected after a lone `"""` is every line up to the first that does not start with `"""`, or up to the end |
| Segmenter.CodeRunEnd | pynote.py:194-195 | a code run extends up to the first line that starts with `"""`, or up to the end |
| Segmenter.PieceAt | pynote.py:182-197 | every pass moves forward: `i < next <= len + 1` |
| Segmenter.IsMarkdownBlock | pynote.py:162-163 | `is_markdown_block`: the line starts with `"""` and has length 3; `ClassifiersAgree` proves this means the line is exactly `"""` |
| Segmenter.IsMarkdownOneliner | pynote.py:166-167 | `is_markdown_oneliner`: starts and ends with `"""` and is longer than 6; `ClassifiersAgree` proves it equal to the `startswith`/`endswith` form and disjoint from the marker test |
| Segmenter.SegmentFrom | pynote.py:181-197 | the blocks the outer loop appends once the cursor stands at position `i`; `SegmentShaped`, `SegmentSize` and the region lemmas state its properties |
| Segmenter.Segment | pynote.py:177-199 | the blocks of the document `process_content` returns for the raw lines of a file; `ProcessContent` is proved to compute it |
| Segmenter.CollectDocstringRun | pynote.py:186-189 | collects exactly the run of `"""`-lines and leaves the index one past the line ending the run; at the end of input the exhaustion is absorbed |
| Segmenter.CollectCodeRun | pynote.py:192-195 | collects the first line and the lines up to the next `"""`-line, and leaves the index one past that line; at the end of input the exhaustion is absorbed |
| Segmenter.ProcessLine | pynote.py:182-197 | one pass of the loop appends `Build(PieceAt(ls, i))` and leaves the cursor at the piece's next position |
| Segmenter.ProcessContent | pynote.py:177-199 | the loop terminates, and the document's blocks are exactly `Segment(content)`, in input order |
| SegmenterProperties.ClassifiersAgree | pynote.py:162-167 | `is_markdown_block(l)` holds iff `l == '"""'`; `is_markdown_oneliner` is startswith, endswith and length > 6; the two never both hold |
| SegmenterProperties.QuoteRunsStartCode | pynote.py:162-167 | `""""""` and `"""abc` are neither a marker nor a one-liner |
| SegmenterProperties.OnelinerBlock | pynote.py:182-184 | a one-liner becomes the single-line block `Markdown([text])`, and the next pass starts on the next line |
| SegmenterProperties.MarkerRegionBlock | pynote.py:185-190 | a lone `"""` followed by lines starting with `"""` up to position `j` gives one Markdown block of those lines; the line at `j`, which does not start with `"""`, is read too and belongs to no block |
| SegmenterProperties.CodeRegionBlock | pynote.py:191-197 | a line that is neither marker, with no line starting with `"""` after it before `j` and a `"""`-line (or the end) at `j`, gives one Code block of lines `i..j`, and the next pass starts at `j` |
| SegmenterProperties.SegmentSize | pynote.py:181-199 | there are never more blocks than lines left |
| SegmenterProperties.PieceShaped | pynote.py:182-197 | the block of one pass is well-formed; a Markdown block has one line or only `"""`-lines; a Code block has no `"""`-line after its first |
| SegmenterProperties.SegmentShaped | pynote.py:181-197 | every block of the document has the shape `PieceShaped` describes |
| SegmenterProperties.MarkerDropsNextLine | pynote.py:185-190 | a lone `"""` followed by a line not starting with `"""` gives `Markdown([])`, and that line belongs to no block |
| SegmenterProperties.NoDocstringIsOneCodeBlock | pynote.py:191-197 | input without any line starting with `"""` becomes one Code block of all of it |
| SegmenterProperties.OpeningMarkerBreaksTitle | pynote.py:185-190 | a file opening with a lone `"""` and then prose starts with `Markdown([])`, where `title()` would fail |
| SegmenterProperties.FlaskOpening | example/flask.py:1-2 | the repository's Flask example is such a file |
| SegmenterProperties.OnelinerExample | pynote.py:182-184 | `"""Hello"""` gives exactly `[Markdown(["Hello"])]` |
| SegmenterProperties.ShortRegionExample | pynote.py:185-197 | `"""`, `a`, `b`, `"""` gives `[Markdown([]), Code(["b"]), Markdown([])]`: `a` is lost and `b` becomes code |
| SegmenterProperties.ProseRegionExample | pynote.py:185-197 | `x = 1`, `"""`, `Explanation.`, `"""`, `y = 2` gives `[Code(["x = 1"]), Markdown([]), Markdown([])]` |

## Left out

- `to_html` (pynote.py:115-159): it fills an HTML page template and escapes the tokens with `json.dumps`, a foreign serializer. It calls `title()`, so it inherits that precondition.
- `parse_args`, `process_file` and `main` (pynote.py:170-174, 202-221): command-line parsing, file reading and writing, and directory creation. This is I/O. `process_content` receives the lines `f.readlines()` would return as its parameter.
- `__repr__` and `__iter__` (pynote.py:35-36, 56-57): they do not affect the document. `Block.render` at pynote.py:53-54 is an abstract placeholder; the sum type has no base variant.
- Cursor.IterBack.Backward: requires `index > 0`. In Python a backward step at index 0 would make the index -1; the next read would then return the last line, or raise IndexError on an empty list. `process_content` only calls it after a read, so the case never arises there.
- Documents.Document.Title: requires `TitleDefined`. When the first block is a `Markdown` block without lines, the source raises IndexError; the model excludes that input and does not model the exception.
- Cursor.IterBack.Next: the index is a `nat`. Python's integers and list indexing are unbounded in the same way, so no width is modelled.
- Strings are sequences of characters. Python's `str` methods used here (`startswith`, `endswith`, `removeprefix`, `removesuffix`, truthiness) depend on nothing beyond that.

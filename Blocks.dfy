/**
 * `Block` and its two variants `Code` and `Markdown`, as a sum type. The lines
 * a block holds are the ones its constructor stores, i.e. already passed
 * through `strip_list` (see `NewCode`, `NewMarkdown`).
 */
module Blocks {
  import opened Strings
  import opened Strip

  const CODE_OPEN := CODE_SECTION + "py"

  datatype Block = Code(lines: seq<string>) | Markdown(lines: seq<string>) {

    /** `__bool__`: the block has at least one line. */
    predicate Truthy() {
      |lines| > 0
    }

    /** `is_empty`: no line is a non-empty string (so a zero-line block is empty too). */
    predicate IsEmpty() {
      AllEmpty(lines)
    }

    /** `render`: Markdown lines verbatim; Code lines fenced, or nothing when all are empty. */
    function Render(): (r: seq<string>)
      ensures Markdown? ==> r == lines
      ensures Code? ==> (r == [] <==> IsEmpty())
      ensures Code? && !IsEmpty() ==> |r| == |lines| + 2 && r[0] == CODE_OPEN && r[1..|r| - 1] == lines && r[|r| - 1] == CODE_SECTION
    {
      match this
      case Code(_) => if IsEmpty() then [] else [CODE_OPEN] + lines + [CODE_SECTION]
      case Markdown(_) => lines
    }
  }

  /** `Code(lines)`: the constructor stores `strip_list(lines)`. */
  function NewCode(raw: seq<string>): (b: Block)
    ensures b.Code? && b.lines == Stripped(raw)
  {
    Code(Stripped(raw))
  }

  /** `Markdown(lines)`: the constructor stores `strip_list(lines)`. */
  function NewMarkdown(raw: seq<string>): (b: Block)
    ensures b.Markdown? && b.lines == Stripped(raw)
  {
    Markdown(Stripped(raw))
  }

  /** A block as its constructor leaves it: stripping its lines again changes nothing. */
  predicate WellFormed(b: Block) {
    Stripped(b.lines) == b.lines
  }

  /** Both constructors produce well-formed blocks. */
  lemma ConstructedIsWellFormed(raw: seq<string>)
    ensures WellFormed(NewCode(raw)) && WellFormed(NewMarkdown(raw))
  {
    StrippedIdempotent(raw);
  }

  /** A constructed block is falsy exactly when its constructor got the empty list: empty strings alone still make it truthy. */
  lemma {:induction false} TruthyIffRawNonEmpty(raw: seq<string>)
    ensures NewCode(raw).Truthy() <==> |raw| > 0
    ensures NewMarkdown(raw).Truthy() <==> |raw| > 0
  {
    StrippedIsTrimmedSlice(raw);
  }

  /**
   * The edge case the source keeps: a Code block of empty strings is truthy
   * yet renders nothing, while a Markdown block of empty strings renders them.
   */
  lemma BlankBlocks(raw: seq<string>)
    requires |raw| > 0 && AllEmpty(raw)
    ensures NewCode(raw).Truthy() && NewCode(raw).Render() == []
    ensures NewMarkdown(raw).Truthy() && NewMarkdown(raw).Render() == raw
  {
    StrippedIsTrimmedSlice(raw);
  }
}

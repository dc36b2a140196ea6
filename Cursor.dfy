/**
 * `IterBack`: a cursor over a list of lines with a one-step pushback.
 * Exhaustion, which the source signals by raising StopIteration, is `None`.
 */
module Cursor {
  import opened Wrappers
  import opened Strings

  /** The lines the cursor yields, position by position: each raw element with one trailing newline removed. */
  function Lines(raw: seq<string>): (lines: seq<string>)
    ensures |lines| == |raw|
  {
    seq(|raw|, k requires 0 <= k < |raw| => RemoveSuffix(raw[k], NEWLINE))
  }

  /** Each line is its raw element less one trailing newline, when there is one, and the element itself otherwise. */
  lemma LinesDropNewline(raw: seq<string>, k: nat)
    requires k < |raw|
    ensures EndsWith(raw[k], NEWLINE) ==> Lines(raw)[k] + NEWLINE == raw[k]
    ensures !EndsWith(raw[k], NEWLINE) ==> Lines(raw)[k] == raw[k]
  {
  }

  class IterBack {
    const iterable: seq<string>
    const len: nat
    /** What the cursor yields, position by position. */
    ghost const lines: seq<string>
    var index: nat

    /** `len` caches the length of `iterable`; line `k` is raw element `k` less its newline. */
    ghost predicate Valid() {
      && len == |iterable| && |lines| == len
      && forall k {:trigger iterable[k]} :: 0 <= k < len ==> lines[k] == RemoveSuffix(iterable[k], NEWLINE)
    }

    constructor (iterable: seq<string>)
      ensures Valid() && this.iterable == iterable && lines == Lines(iterable) && index == 0
    {
      this.iterable := iterable;
      this.len := |iterable|;
      this.lines := Lines(iterable);
      this.index := 0;
    }

    /** `__next__`: the index moves forward by one whether or not a line is left. */
    method Next() returns (r: Option<string>)
      requires Valid()
      modifies this`index
      ensures index == old(index) + 1
      ensures old(index) < len ==> r == Some(lines[old(index)])
      ensures old(index) < len ==> r == Some(RemoveSuffix(iterable[old(index)], NEWLINE))
      ensures old(index) >= len ==> r == None
    {
      var next := index;
      index := index + 1;
      if next >= len {
        return None;
      }
      var val := iterable[next];
      return Some(RemoveSuffix(val, NEWLINE));
    }

    /** `backward`: makes the most recently produced position the next one again. */
    method Backward()
      requires index > 0
      modifies this`index
      ensures index == old(index) - 1
    {
      index := index - 1;
    }
  }
}

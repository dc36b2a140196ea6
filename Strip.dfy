/**
 * `strip_list`: trimming the empty strings off both ends of a list of lines.
 * The method follows the source step by step (an index search, a slice, the
 * same search on the reversed list, a second slice, each guarded by Python's
 * `if idx:`); the function `Stripped` says declaratively what it returns.
 * A string is "empty" when it has no characters: Python's truthiness of `str`.
 */
module Strip {
  import opened Wrappers

  /** Every element is the empty string (vacuously so for the empty list). */
  predicate AllEmpty(s: seq<string>) {
    forall k :: 0 <= k < |s| ==> |s[k]| == 0
  }

  /** Python's `data[::-1]`. */
  function Reversed(s: seq<string>): (r: seq<string>)
    ensures |r| == |s|
    ensures forall k :: 0 <= k < |s| ==> r[k] == s[|s| - 1 - k]
  {
    seq(|s|, k requires 0 <= k < |s| => s[|s| - 1 - k])
  }

  /** The first index at or after `i` holding a non-empty string, or `|s|`. */
  function StartFrom(s: seq<string>, i: nat): (a: nat)
    requires i <= |s|
    ensures i <= a <= |s|
    decreases |s| - i
  {
    if i == |s| || |s[i]| > 0 then i else StartFrom(s, i + 1)
  }

  /** `StartFrom` skips only empty strings and stops on a non-empty one. */
  lemma {:induction false} StartFromSpec(s: seq<string>, i: nat)
    requires i <= |s|
    ensures forall k :: i <= k < StartFrom(s, i) ==> |s[k]| == 0
    ensures StartFrom(s, i) < |s| ==> |s[StartFrom(s, i)]| > 0
    decreases |s| - i
  {
    if i < |s| && |s[i]| == 0 {
      StartFromSpec(s, i + 1);
    }
  }

  /** One past the last index before `j` holding a non-empty string, or 0. */
  function EndBefore(s: seq<string>, j: nat): (b: nat)
    requires j <= |s|
    ensures b <= j
  {
    if j == 0 || |s[j - 1]| > 0 then j else EndBefore(s, j - 1)
  }

  /** `EndBefore` skips only empty strings and stops just after a non-empty one. */
  lemma {:induction false} EndBeforeSpec(s: seq<string>, j: nat)
    requires j <= |s|
    ensures forall k :: EndBefore(s, j) <= k < j ==> |s[k]| == 0
    ensures EndBefore(s, j) > 0 ==> |s[EndBefore(s, j) - 1]| > 0
  {
    if j > 0 && |s[j - 1]| == 0 {
      EndBeforeSpec(s, j - 1);
    }
  }

  /** Where the kept slice starts: the first non-empty element. */
  function Start(s: seq<string>): (a: nat) {
    StartFrom(s, 0)
  }

  /** Where the kept slice ends: just after the last non-empty element. */
  function End(s: seq<string>): (b: nat) {
    EndBefore(s, |s|)
  }

  /** `Start` and `End` bound the kept slice by the first and last non-empty elements. */
  lemma Bounds(s: seq<string>)
    ensures Start(s) <= |s| && End(s) <= |s|
    ensures forall k :: 0 <= k < Start(s) ==> |s[k]| == 0
    ensures Start(s) < |s| ==> |s[Start(s)]| > 0
    ensures forall k :: End(s) <= k < |s| ==> |s[k]| == 0
    ensures End(s) > 0 ==> |s[End(s) - 1]| > 0
  {
    StartFromSpec(s, 0);
    EndBeforeSpec(s, |s|);
  }

  /**
   * What `strip_list` returns: the list from its first to its last non-empty
   * element, or the list itself when it has no non-empty element.
   */
  function Stripped(s: seq<string>): (r: seq<string>) {
    if Start(s) == |s| then s else StartBeforeEnd(s); s[Start(s)..End(s)]
  }

  /** On a list with a non-empty element, the kept slice is non-empty and bounded by non-empty elements. */
  lemma StartBeforeEnd(s: seq<string>)
    requires Start(s) < |s|
    ensures Start(s) < End(s) && |s[Start(s)]| > 0 && |s[End(s) - 1]| > 0
  {
    Bounds(s);
    assert |s[Start(s)]| > 0;
  }

  /** `get_first_not_empty_element`: the index of the first non-empty element, None when there is none. */
  method FirstNotEmptyElement(data: seq<string>) returns (idx: Option<nat>)
    ensures idx.None? <==> AllEmpty(data)
    ensures idx.Some? ==> idx.value < |data| && |data[idx.value]| > 0
    ensures idx.Some? ==> forall k :: 0 <= k < idx.value ==> |data[k]| == 0
  {
    for i := 0 to |data|
      invariant forall k :: 0 <= k < i ==> |data[k]| == 0
    {
      if |data[i]| > 0 {
        return Some(i);
      }
    }
    return None;
  }

  /** `strip_list`. */
  method StripList(data: seq<string>) returns (r: seq<string>)
    ensures r == Stripped(data)
  {
    r := data;
    var idx := FirstNotEmptyElement(r);
    if idx.Some? && idx.value != 0 {
      r := r[idx.value..];
    }
    ghost var front := r;
    idx := FirstNotEmptyElement(Reversed(r));
    if idx.Some? && idx.value != 0 {
      r := r[..|r| - idx.value];
    }
    Bounds(data);
    if Start(data) < |data| {
      StripFrontThenBack(data, front, idx);
    }
  }

  /** The two halves of `StripList` compose to `Stripped` on a list with a non-empty element. */
  lemma StripFrontThenBack(data: seq<string>, front: seq<string>, idx: Option<nat>)
    requires Start(data) < |data| && front == data[Start(data)..]
    requires idx.None? <==> AllEmpty(Reversed(front))
    requires idx.Some? ==> idx.value < |front| && |Reversed(front)[idx.value]| > 0
    requires idx.Some? ==> forall k :: 0 <= k < idx.value ==> |Reversed(front)[k]| == 0
    ensures idx.Some?
    ensures Stripped(data) == front[..|front| - idx.value]
  {
    var a, b := Start(data), End(data);
    Bounds(data);
    StartBeforeEnd(data);
    var rev := Reversed(front);
    assert rev[|front| - 1] == front[0] == data[a];
    var t := idx.value;
    // the search on the reversed list stops just before data's kept slice ends
    assert rev[t] == data[|data| - 1 - t];
    forall k | |data| - t <= k < |data|
      ensures |data[k]| == 0
    {
      assert data[k] == rev[|data| - 1 - k];
    }
    assert |data| - t == b;
    assert front[..|front| - t] == data[a..b];
  }

  /**
   * `strip_list` only trims: the result is the slice `s[a..b]` of the input,
   * everything cut off is empty, and when the input has a non-empty element
   * the slice starts and ends on one (interior empties are kept).
   */
  lemma StrippedIsTrimmedSlice(s: seq<string>)
    ensures exists a, b :: 0 <= a <= b <= |s| && Stripped(s) == s[a..b] && Trims(s, a, b)
    ensures AllEmpty(s) ==> Stripped(s) == s
    ensures !AllEmpty(s) ==> |Stripped(s)| > 0 && |Stripped(s)[0]| > 0 && |Stripped(s)[|Stripped(s)| - 1]| > 0
  {
    Bounds(s);
    if Start(s) == |s| {
      assert Stripped(s) == s[0..|s|];
      assert Trims(s, 0, |s|);
    } else {
      StartBeforeEnd(s);
      assert Trims(s, Start(s), End(s));
    }
  }

  /** Only empty strings lie outside `s[a..b]`, and if any element is non-empty, `s[a]` and `s[b - 1]` are. */
  predicate Trims(s: seq<string>, a: nat, b: nat)
    requires a <= b <= |s|
  {
    && (forall k :: 0 <= k < a ==> |s[k]| == 0)
    && (forall k :: b <= k < |s| ==> |s[k]| == 0)
    && (!AllEmpty(s) ==> a < b && |s[a]| > 0 && |s[b - 1]| > 0)
  }

  /** Stripping a stripped list changes nothing. */
  lemma StrippedIdempotent(s: seq<string>)
    ensures Stripped(Stripped(s)) == Stripped(s)
  {
    if Start(s) < |s| {
      var r := Stripped(s);
      StartBeforeEnd(s);
      assert |r[0]| > 0 && |r[|r| - 1]| > 0;
      Bounds(r);
      assert Start(r) == 0;
      assert End(r) == |r|;
      assert r[0..|r|] == r;
    }
  }
}

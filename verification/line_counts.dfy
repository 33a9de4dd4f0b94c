/** The added/removed line counts shown above the diff, computed from the
    line-level changes each time the diff is recomputed.

    A line change follows the diff provider's convention: on a side with
    lines, `start..end` is an inclusive 1-based line range; on an empty side
    (a pure insertion has an empty original side, a pure deletion an empty
    modified side) the end line is 0 and the start line is the line before
    the change (0 at the top of the document). */
module LineCounts {
  import DiffNavigator
  import opened Wrappers

  type LineChange = DiffNavigator.LineChange

  datatype Counts = Counts(added: int, removed: int)

  /** The per-change terms as the source writes them: `end - start + 1`,
      the length of an inclusive line range. */
  function AddedTerm(lc: LineChange): (t: int)
    ensures lc.modifiedStartLine <= lc.modifiedEndLine ==> t >= 1
    ensures t == 0 <==> lc.modifiedEndLine == lc.modifiedStartLine - 1
  {
    lc.modifiedEndLine - lc.modifiedStartLine + 1
  }

  function RemovedTerm(lc: LineChange): (t: int)
    ensures lc.originalStartLine <= lc.originalEndLine ==> t >= 1
    ensures t == 0 <==> lc.originalEndLine == lc.originalStartLine - 1
  {
    lc.originalEndLine - lc.originalStartLine + 1
  }

  /** Reference sums over the changes, first change first. */
  function SumAdded(lcs: seq<LineChange>): (total: int)
    ensures |lcs| == 0 ==> total == 0
    ensures (forall k :: 0 <= k < |lcs| ==> AddedTerm(lcs[k]) >= 0) ==> total >= 0
  {
    if |lcs| == 0 then 0
    else
      var rest := SumAdded(lcs[1..]);
      assert forall k :: 0 <= k < |lcs[1..]| ==> lcs[1..][k] == lcs[k + 1];
      AddedTerm(lcs[0]) + rest
  }

  function SumRemoved(lcs: seq<LineChange>): (total: int)
    ensures |lcs| == 0 ==> total == 0
    ensures (forall k :: 0 <= k < |lcs| ==> RemovedTerm(lcs[k]) >= 0) ==> total >= 0
  {
    if |lcs| == 0 then 0
    else
      var rest := SumRemoved(lcs[1..]);
      assert forall k :: 0 <= k < |lcs[1..]| ==> lcs[1..][k] == lcs[k + 1];
      RemovedTerm(lcs[0]) + rest
  }

  lemma {:induction false} SumsAppendOne(lcs: seq<LineChange>, lc: LineChange)
    ensures SumAdded(lcs + [lc]) == SumAdded(lcs) + AddedTerm(lc)
    ensures SumRemoved(lcs + [lc]) == SumRemoved(lcs) + RemovedTerm(lc)
  {
    if |lcs| == 0 {
      assert lcs + [lc] == [lc];
    } else {
      assert (lcs + [lc])[1..] == lcs[1..] + [lc];
      SumsAppendOne(lcs[1..], lc);
    }
  }

  /** The `reduce` from `[0, 0]`, a left fold with the last change added
      last, computes the plain sums: `Σ(modifiedEnd - modifiedStart + 1)`
      added and `Σ(originalEnd - originalStart + 1)` removed; 0/0 when there
      are no changes. */
  function RawCounts(lcs: seq<LineChange>): (c: Counts)
    ensures c == Counts(SumAdded(lcs), SumRemoved(lcs))
  {
    if |lcs| == 0 then Counts(0, 0)
    else
      var init := lcs[..|lcs| - 1];
      var acc := RawCounts(init);
      var cur := lcs[|lcs| - 1];
      assert lcs == init + [cur];
      SumsAppendOne(init, cur);
      Counts(acc.added + AddedTerm(cur), acc.removed + RemovedTerm(cur))
  }

  /** `Math.max(x, 0)`. */
  function ClampAtZero(x: int): (r: int)
    ensures r >= 0 && r >= x
    ensures x >= 0 ==> r == x
    ensures x < 0 ==> r == 0
  {
    if x > 0 then x else 0
  }

  /** The displayed counts: the raw totals, each clamped at zero. */
  function CountLines(lcs: seq<LineChange>): (c: Counts)
    ensures c.added >= 0 && c.removed >= 0
    ensures c.added == ClampAtZero(SumAdded(lcs))
    ensures c.removed == ClampAtZero(SumRemoved(lcs))
  {
    var raw := RawCounts(lcs);
    Counts(ClampAtZero(raw.added), ClampAtZero(raw.removed))
  }

  /** The `updateLineChanges` handler's arithmetic as an imperative loop,
      the form the `reduce` executes in, followed by the clamp. `CountLines`
      is the same computation as a function, for use in other proofs; this
      method shows the loop computes the same totals. */
  method UpdateLineChanges(lcs: seq<LineChange>) returns (added: int, removed: int)
    ensures added >= 0 && removed >= 0
    ensures added == ClampAtZero(SumAdded(lcs)) && removed == ClampAtZero(SumRemoved(lcs))
  {
    added, removed := 0, 0;
    var i := 0;
    while i < |lcs|
      invariant 0 <= i <= |lcs|
      invariant added == SumAdded(lcs[..i]) && removed == SumRemoved(lcs[..i])
    {
      var cur := lcs[i];
      SumsAppendOne(lcs[..i], cur);
      assert lcs[..i + 1] == lcs[..i] + [cur];
      added := added + cur.modifiedEndLine - cur.modifiedStartLine + 1;
      removed := removed + cur.originalEndLine - cur.originalStartLine + 1;
      i := i + 1;
    }
    assert lcs[..i] == lcs;
    added := if added > 0 then added else 0;
    removed := if removed > 0 then removed else 0;
  }

  /** The clamp applies to the totals, not to each term: a negative term
      cancels part of a positive one. A change whose added term is 3 and one
      whose added term is -2 show one added line, not three. */
  lemma ClampAppliesToTotals()
    ensures var lcs := [DiffNavigator.LineChange(1, 1, 1, 3, None),
                        DiffNavigator.LineChange(5, 5, 3, 0, None)];
      && AddedTerm(lcs[0]) == 3 && AddedTerm(lcs[1]) == -2
      && CountLines(lcs).added == 1
  {
  }

  /** As written, a pure insertion at the very top (original side `0..0`)
      contributes `0 - 0 + 1 = 1` removed line: the display shows one removed
      line although nothing was removed. */
  lemma InsertionAtTopMiscounted()
    ensures var lcs := [DiffNavigator.LineChange(0, 0, 1, 2, None)];
      CountLines(lcs) == Counts(2, 1)
  {
  }

  /** Lines on one side of a change, an empty side (end line 0) counting 0. */
  function LinesOnSide(start: int, end: int): (lines: int)
    ensures end == 0 ==> lines == 0
    ensures 1 <= start <= end ==> lines == end - start + 1 && lines >= 1
  {
    if end == 0 then 0 else end - start + 1
  }

  /** A line change that keeps the convention: each side is either empty or
      a non-empty 1-based range. */
  predicate WellFormed(lc: LineChange)
  {
    && (lc.originalEndLine == 0 || 1 <= lc.originalStartLine <= lc.originalEndLine)
    && (lc.modifiedEndLine == 0 || 1 <= lc.modifiedStartLine <= lc.modifiedEndLine)
  }

  /** The counts as evidently intended: the number of lines in the modified
      ranges and in the original ranges. */
  function CorrectedCounts(lcs: seq<LineChange>): (c: Counts)
    ensures |lcs| == 0 ==> c == Counts(0, 0)
    ensures (forall k :: 0 <= k < |lcs| ==> WellFormed(lcs[k])) ==> c.added >= 0 && c.removed >= 0
  {
    if |lcs| == 0 then Counts(0, 0)
    else
      var rest := CorrectedCounts(lcs[1..]);
      assert forall k :: 0 <= k < |lcs[1..]| ==> lcs[1..][k] == lcs[k + 1];
      Counts(LinesOnSide(lcs[0].modifiedStartLine, lcs[0].modifiedEndLine) + rest.added,
             LinesOnSide(lcs[0].originalStartLine, lcs[0].originalEndLine) + rest.removed)
  }

  /** On well-formed changes the corrected counts need no clamp: each is
      non-negative, an empty side contributes nothing, and they agree with
      the source's sums whenever no change has an empty side. */
  lemma {:induction false} CorrectedCountsSound(lcs: seq<LineChange>)
    requires forall k :: 0 <= k < |lcs| ==> WellFormed(lcs[k])
    ensures CorrectedCounts(lcs).added >= 0 && CorrectedCounts(lcs).removed >= 0
    ensures (forall k :: 0 <= k < |lcs| ==> lcs[k].modifiedEndLine != 0) ==>
      CorrectedCounts(lcs).added == SumAdded(lcs)
    ensures (forall k :: 0 <= k < |lcs| ==> lcs[k].originalEndLine != 0) ==>
      CorrectedCounts(lcs).removed == SumRemoved(lcs)
  {
    if |lcs| > 0 {
      CorrectedCountsSound(lcs[1..]);
    }
  }

  /** Corrected, each change appended adds the lines on each of its sides,
      an empty side adding none, whatever changes come before it. */
  lemma {:induction false} CorrectedCountsAppend(lcs: seq<LineChange>, lc: LineChange)
    ensures CorrectedCounts(lcs + [lc]) ==
      Counts(CorrectedCounts(lcs).added + LinesOnSide(lc.modifiedStartLine, lc.modifiedEndLine),
             CorrectedCounts(lcs).removed + LinesOnSide(lc.originalStartLine, lc.originalEndLine))
  {
    if |lcs| == 0 {
      assert (lcs + [lc])[1..] == [];
    } else {
      assert (lcs + [lc])[1..] == lcs[1..] + [lc];
      CorrectedCountsAppend(lcs[1..], lc);
    }
  }

  /** Corrected, appending a pure insertion never changes the removed count
      and appending a pure deletion never changes the added count. */
  lemma CorrectedEmptySideAddsNothing(lcs: seq<LineChange>, lc: LineChange)
    ensures lc.originalEndLine == 0 ==> CorrectedCounts(lcs + [lc]).removed == CorrectedCounts(lcs).removed
    ensures lc.modifiedEndLine == 0 ==> CorrectedCounts(lcs + [lc]).added == CorrectedCounts(lcs).added
  {
    CorrectedCountsAppend(lcs, lc);
  }

  /** Corrected, the top insertion counts two added lines and none removed. */
  lemma InsertionAtTopCorrected()
    ensures CorrectedCounts([DiffNavigator.LineChange(0, 0, 1, 2, None)]) == Counts(2, 0)
  {
  }
}

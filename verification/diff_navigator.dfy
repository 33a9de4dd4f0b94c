/** The difference navigator: a cursor over the flattened list of
    character-level changes of a two-pane diff editor, stepped forward and
    backward with wrap-around. Each step emits the editor effect it asks for
    (which pane to focus and which range to reveal) as a value. */
module DiffNavigator {
  import opened Wrappers
  import opened JsArith

  /** One character-level change: 1-based line/column coordinates on both
      sides; a side that is all zero is empty. */
  datatype CharChange = CharChange(
    originalStartLine: int, originalStartColumn: int,
    originalEndLine: int, originalEndColumn: int,
    modifiedStartLine: int, modifiedStartColumn: int,
    modifiedEndLine: int, modifiedEndColumn: int)

  /** One line-level change as the diff provider reports it; `charChanges`
      may be missing. */
  datatype LineChange = LineChange(
    originalStartLine: int, originalEndLine: int,
    modifiedStartLine: int, modifiedEndLine: int,
    charChanges: Option<seq<CharChange>>)

  datatype Position = Position(line: int, column: int)

  datatype Range = Range(startLine: int, startColumn: int, endLine: int, endColumn: int)
  {
    function Start(): (p: Position)
      ensures p.line == startLine && p.column == startColumn
    {
      Position(startLine, startColumn)
    }
  }

  /** The two panes of the diff editor. */
  datatype Side = OriginalSide | ModifiedSide

  /** The effect one navigation step requests: focus the pane on `side`,
      put the cursor at `cursor` and scroll `range` into the centre. */
  datatype Target = Target(side: Side, cursor: Position, range: Range)

  /** The navigator's state: the flattened change list and the cursor,
      which is -1 before the first move. */
  datatype Navigator = Navigator(changes: seq<CharChange>, index: int)

  const Initial: Navigator := Navigator([], -1)

  /** The character changes of one line change, a missing list read as empty. */
  function CharChangesOf(lc: LineChange): (cs: seq<CharChange>)
    ensures lc.charChanges.Some? ==> cs == lc.charChanges.value
    ensures lc.charChanges.None? ==> cs == []
  {
    lc.charChanges.GetOr([])
  }

  /** `flatMap(lc => lc.charChanges || [])` over the line changes. No line
      changes flatten to nothing, and a single line change flattens to its own
      list, each change once and in order; with `FlattenAppend` this makes the
      result the in-order concatenation of all the lists. */
  function Flatten(lcs: seq<LineChange>): (flat: seq<CharChange>)
    ensures |lcs| == 0 ==> flat == []
    ensures |lcs| == 1 ==> flat == CharChangesOf(lcs[0])
  {
    if |lcs| == 0 then [] else CharChangesOf(lcs[0]) + Flatten(lcs[1..])
  }

  /** Flattening distributes over concatenation of the line-change list. */
  lemma {:induction false} FlattenAppend(a: seq<LineChange>, b: seq<LineChange>)
    ensures Flatten(a + b) == Flatten(a) + Flatten(b)
  {
    if |a| == 0 {
      assert a + b == b;
    } else {
      assert (a + b)[1..] == a[1..] + b;
      FlattenAppend(a[1..], b);
    }
  }

  /** One step of the flattening: the first line change's character
      changes, then those of the rest. */
  lemma FlattenCons(lcs: seq<LineChange>)
    requires |lcs| > 0
    ensures Flatten(lcs) == CharChangesOf(lcs[0]) + Flatten(lcs[1..])
  {
  }

  /** Around any line change `i` the flattened list splits into the
      flattening of the line changes before it, its own character changes
      (none when its list is missing or empty), and the flattening of the
      line changes after it. */
  lemma FlattenSplit(lcs: seq<LineChange>, i: int)
    requires 0 <= i < |lcs|
    ensures Flatten(lcs) == Flatten(lcs[..i]) + CharChangesOf(lcs[i]) + Flatten(lcs[i + 1..])
  {
    var pre, rest := lcs[..i], lcs[i..];
    assert lcs == pre + rest;
    FlattenAppend(pre, rest);
    FlattenCons(rest);
    assert rest[0] == lcs[i] && rest[1..] == lcs[i + 1..];
  }

  /** The flat list holds exactly the character changes of the line
      changes, and it is empty exactly when none of them has any. */
  lemma {:induction false} FlattenMembers(lcs: seq<LineChange>)
    ensures forall c :: c in Flatten(lcs) ==> exists i :: 0 <= i < |lcs| && c in CharChangesOf(lcs[i])
    ensures forall i, c :: 0 <= i < |lcs| && c in CharChangesOf(lcs[i]) ==> c in Flatten(lcs)
    ensures Flatten(lcs) == [] <==> forall i :: 0 <= i < |lcs| ==> CharChangesOf(lcs[i]) == []
  {
    if |lcs| > 0 {
      FlattenMembers(lcs[1..]);
      assert forall i :: 1 <= i < |lcs| ==> lcs[i] == lcs[1..][i - 1];
    }
  }

  /** Every character change of line change `i` appears in the flattened
      list, in its own order, right after those of the line changes before it. */
  lemma FlattenContents(lcs: seq<LineChange>, i: int, j: int)
    requires 0 <= i < |lcs|
    requires 0 <= j < |CharChangesOf(lcs[i])|
    ensures |Flatten(lcs[..i])| + j < |Flatten(lcs)|
    ensures Flatten(lcs)[|Flatten(lcs[..i])| + j] == CharChangesOf(lcs[i])[j]
  {
    FlattenSplit(lcs, i);
  }

  /** The diff-update handler: the change list is rebuilt wholesale, and the
      cursor is left as it was (a stale cursor is normalised by the next move). */
  function Refresh(nav: Navigator, lcs: seq<LineChange>): (r: Navigator)
    ensures r.index == nav.index
    ensures r.changes == Flatten(lcs)
  {
    Navigator(Flatten(lcs), nav.index)
  }

  function CanNavigate(nav: Navigator): (b: bool)
    ensures b <==> nav.changes != []
  {
    |nav.changes| > 0
  }

  /** The modified-side coordinates in the order the source lists them. */
  function ModifiedCoordinates(c: CharChange): (coords: seq<int>)
    ensures |coords| == 4
  {
    [c.modifiedStartLine, c.modifiedEndLine, c.modifiedStartColumn, c.modifiedEndColumn]
  }

  /** `[...].every(value => value === 0)` over the modified-side coordinates:
      the change is deletion-only exactly when its modified side is all zero. */
  function NoAdditions(c: CharChange): (b: bool)
    ensures b <==>
      c.modifiedStartLine == 0 && c.modifiedStartColumn == 0 &&
      c.modifiedEndLine == 0 && c.modifiedEndColumn == 0
  {
    var coords := ModifiedCoordinates(c);
    assert coords[0] == c.modifiedStartLine && coords[1] == c.modifiedEndLine;
    assert coords[2] == c.modifiedStartColumn && coords[3] == c.modifiedEndColumn;
    forall k :: 0 <= k < |coords| ==> coords[k] == 0
  }

  /** Where a change is shown: a deletion-only change in the original pane
      with its original range, any other change in the modified pane with its
      modified range. */
  function TargetOf(c: CharChange): (t: Target)
    ensures t.side == OriginalSide <==>
      c.modifiedStartLine == 0 && c.modifiedStartColumn == 0 &&
      c.modifiedEndLine == 0 && c.modifiedEndColumn == 0
    ensures t.side == OriginalSide ==>
      t.range == Range(c.originalStartLine, c.originalStartColumn, c.originalEndLine, c.originalEndColumn)
    ensures t.side == ModifiedSide ==>
      t.range == Range(c.modifiedStartLine, c.modifiedStartColumn, c.modifiedEndLine, c.modifiedEndColumn)
    ensures t.side == OriginalSide ==> t.cursor == Position(c.originalStartLine, c.originalStartColumn)
    ensures t.side == ModifiedSide ==> t.cursor == Position(c.modifiedStartLine, c.modifiedStartColumn)
  {
    var range := if NoAdditions(c)
      then Range(c.originalStartLine, c.originalStartColumn, c.originalEndLine, c.originalEndColumn)
      else Range(c.modifiedStartLine, c.modifiedStartColumn, c.modifiedEndLine, c.modifiedEndColumn);
    Target(if NoAdditions(c) then OriginalSide else ModifiedSide, range.Start(), range)
  }

  /** One navigation step by `delta`: on an empty list nothing happens and no
      effect is emitted; otherwise the cursor moves to `(index + delta) mod n`
      (true modulo, into `[0, n)`, whatever the old cursor was) and the change
      found there is targeted. The list itself never changes. */
  function Move(nav: Navigator, delta: int): (r: (Navigator, Option<Target>))
    ensures !CanNavigate(nav) ==> r.0 == nav && r.1 == None
    ensures CanNavigate(nav) ==>
      && r.0.changes == nav.changes
      && 0 <= r.0.index < |nav.changes|
      && r.0.index == (nav.index + delta) % |nav.changes|
      && r.1 == Some(TargetOf(nav.changes[r.0.index]))
  {
    if !CanNavigate(nav) then (nav, None)
    else
      var index := Wrap(nav.index + delta, |nav.changes|);
      (Navigator(nav.changes, index), Some(TargetOf(nav.changes[index])))
  }

  function Next(nav: Navigator): (r: (Navigator, Option<Target>))
    ensures !CanNavigate(nav) ==> r == (nav, None)
    ensures CanNavigate(nav) ==>
      && r.0 == Navigator(nav.changes, (nav.index + 1) % |nav.changes|)
      && r.1 == Some(TargetOf(nav.changes[r.0.index]))
  {
    Move(nav, 1)
  }

  function Previous(nav: Navigator): (r: (Navigator, Option<Target>))
    ensures !CanNavigate(nav) ==> r == (nav, None)
    ensures CanNavigate(nav) ==>
      && r.0 == Navigator(nav.changes, (nav.index - 1) % |nav.changes|)
      && r.1 == Some(TargetOf(nav.changes[r.0.index]))
  {
    Move(nav, -1)
  }

  /** The navigator state after `k` successive `next()` calls. */
  function NextTimes(nav: Navigator, k: nat): (r: Navigator)
    ensures r.changes == nav.changes
    decreases k
  {
    if k == 0 then nav else NextTimes(Next(nav).0, k - 1)
  }

  /** On an empty list neither step changes the cursor nor emits an effect. */
  lemma EmptyListIsInert(nav: Navigator)
    requires nav.changes == []
    ensures Next(nav) == (nav, None) && Previous(nav) == (nav, None)
  {
  }

  /** A fresh navigator after its first diff update: the first `next()`
      lands on the first change, and the first `previous()` lands on
      `-2 mod n`: the last-but-one change when there are at least three,
      otherwise the first. */
  lemma FirstMoveFromUnset(lcs: seq<LineChange>)
    requires Flatten(lcs) != []
    ensures var nav := Refresh(Initial, lcs);
      && Next(nav).0.index == 0
      && (|nav.changes| >= 3 ==> Previous(nav).0.index == |nav.changes| - 2)
      && (|nav.changes| <= 2 ==> Previous(nav).0.index == 0)
  {
    var nav := Refresh(Initial, lcs);
    var n := |nav.changes|;
    assert nav.index == -1 && n > 0;
    UniqueResidue(0, 0, n, 0);
    if n >= 3 {
      UniqueResidue(-2, -1, n, n - 2);
    } else {
      UniqueResidue(-2, -2 / n, n, 0);
    }
  }

  /** With the list unchanged and the cursor in range, `previous()` undoes
      `next()` and `next()` undoes `previous()`. */
  lemma NextPreviousInverse(nav: Navigator)
    requires 0 <= nav.index < |nav.changes|
    ensures Previous(Next(nav).0).0 == nav
    ensures Next(Previous(nav).0).0 == nav
  {
    var n := |nav.changes|;
    var i := nav.index;
    if i + 1 < n {
      UniqueResidue(i + 1, 0, n, i + 1);
      UniqueResidue(i, 0, n, i);
    } else {
      UniqueResidue(i + 1, 1, n, 0);
      UniqueResidue(-1, -1, n, n - 1);
    }
    if i >= 1 {
      UniqueResidue(i - 1, 0, n, i - 1);
      UniqueResidue(i, 0, n, i);
    } else {
      UniqueResidue(-1, -1, n, n - 1);
      UniqueResidue(n, 1, n, 0);
    }
  }

  /** `k >= 1` successive `next()` calls put the cursor at `(index + k) mod n`,
      from any starting cursor (the unset one and stale ones included). */
  lemma {:induction false} NextTimesIndex(nav: Navigator, k: nat)
    requires nav.changes != [] && k >= 1
    ensures NextTimes(nav, k) == Navigator(nav.changes, (nav.index + k) % |nav.changes|)
    decreases k
  {
    var n := |nav.changes|;
    var step := Next(nav).0;
    if k > 1 {
      NextTimesIndex(step, k - 1);
      ShiftResidue(nav.index + 1, k - 1, n);
    }
  }

  /** A full turn of `n` steps brings an in-range cursor back to itself. */
  lemma FullTurn(i: int, n: int)
    requires 0 <= i < n
    ensures (i + n) % n == i
  {
    UniqueResidue(i + n, 1, n, i);
  }

  /** `n` successive `next()` calls on a list of `n` changes return the cursor
      to where it was. */
  lemma NextCycle(nav: Navigator)
    requires 0 <= nav.index < |nav.changes|
    ensures NextTimes(nav, |nav.changes|) == nav
  {
    var n := |nav.changes|;
    FullTurn(nav.index, n);
    NextTimesIndex(nav, n);
    assert NextTimes(nav, n) == Navigator(nav.changes, nav.index);
  }

  /** A cursor left behind by a longer list is wrapped, not clamped, by the
      next step: index 9 on a list shrunk to 3 changes moves to index 1. */
  lemma StaleCursorWraps(nav: Navigator, lcs: seq<LineChange>)
    requires nav.index == 9 && |Flatten(lcs)| == 3
    ensures Next(Refresh(nav, lcs)).0.index == 1
  {
  }

  /** Deletion-only change `a` then ordinary change `b`: from the unset
      cursor, three `next()` calls visit `a` in the original pane, `b` in the
      modified pane, and `a` again. */
  lemma TwoChangeWalk(a: CharChange, b: CharChange)
    requires a.modifiedStartLine == 0 && a.modifiedStartColumn == 0
    requires a.modifiedEndLine == 0 && a.modifiedEndColumn == 0
    requires b.modifiedStartLine != 0
    ensures var s0 := Navigator([a, b], Initial.index);
      var (s1, t1) := Next(s0);
      var (s2, t2) := Next(s1);
      var (s3, t3) := Next(s2);
      && s1.index == 0 && t1 == Some(TargetOf(a)) && t1.value.side == OriginalSide
      && s2.index == 1 && t2 == Some(TargetOf(b)) && t2.value.side == ModifiedSide
      && s3.index == 0 && t3 == Some(TargetOf(a))
  {
  }
}

/** The backup diff view: long runs of unchanged lines fold into gaps. */
module CollapseDiff {
  datatype Kind = Same | Add | Remove
  datatype Line = Line(kind: Kind, text: string)
  datatype Row = LineRow(line: Line) | Gap(groupId: nat, lines: seq<Line>)

  const CONTEXT: nat := 3

  // ---- What a list of rows shows ----

  function Piece(row: Row): seq<Line> {
    match row
    case LineRow(line) => [line]
    case Gap(_, lines) => lines
  }

  /** The lines behind the rows, with every gap unfolded. */
  function Expand(rows: seq<Row>): seq<Line> {
    if rows == [] then [] else Expand(rows[..|rows| - 1]) + Piece(rows[|rows| - 1])
  }

  function Flags(n: nat, value: bool): (r: seq<bool>)
    ensures |r| == n && forall k :: 0 <= k < n ==> r[k] == value
  {
    seq(n, _ => value)
  }

  /** Which of those lines are on screen. */
  function Visible(rows: seq<Row>): (r: seq<bool>)
    ensures |r| == |Expand(rows)|
  {
    if rows == [] then []
    else Visible(rows[..|rows| - 1]) + Flags(|Piece(rows[|rows| - 1])|, rows[|rows| - 1].LineRow?)
  }

  function GapCount(rows: seq<Row>): nat {
    if rows == [] then 0 else GapCount(rows[..|rows| - 1]) + if rows[|rows| - 1].Gap? then 1 else 0
  }

  /** Gaps are numbered from 1 in order, hold two or more unchanged lines, and never stand side by side. */
  ghost predicate WellFormed(rows: seq<Row>) {
    rows != [] ==>
      && WellFormed(rows[..|rows| - 1])
      && var last := rows[|rows| - 1];
         last.Gap? ==>
           && last.groupId == GapCount(rows)
           && |last.lines| >= 2
           && (forall k :: 0 <= k < |last.lines| ==> last.lines[k].kind == Same)
           && (|rows| >= 2 ==> rows[|rows| - 2].LineRow?)
  }

  // ---- Which lines may be hidden ----

  /** No line within the context distance of k is changed. */
  ghost predicate Far(lines: seq<Line>, k: int) {
    && 0 <= k < |lines|
    && forall j :: 0 <= j < |lines| && k - CONTEXT <= j <= k + CONTEXT ==> lines[j].kind == Same
  }

  ghost predicate Hidden(lines: seq<Line>, k: int) {
    Far(lines, k) && (Far(lines, k - 1) || Far(lines, k + 1))
  }

  /** The stretch [s, e) of unchanged lines cannot be made longer. */
  predicate IsRun(lines: seq<Line>, s: nat, e: nat) {
    && s <= e <= |lines|
    && (forall k :: s <= k < e ==> lines[k].kind == Same)
    && (s > 0 ==> lines[s - 1].kind != Same)
    && (e < |lines| ==> lines[e].kind != Same)
  }

  function Head(s: nat): nat {
    if s == 0 then 0 else CONTEXT
  }

  function Foot(endIsChange: bool): nat {
    if endIsChange then CONTEXT else 0
  }

  lemma FarInRun(lines: seq<Line>, s: nat, e: nat, k: int)
    requires IsRun(lines, s, e) && s - 1 <= k <= e
    ensures Far(lines, k) <==> s + Head(s) <= k < e - Foot(e < |lines|)
  {
    if s + Head(s) <= k < e - Foot(e < |lines|) {
      forall j | 0 <= j < |lines| && k - CONTEXT <= j <= k + CONTEXT
        ensures lines[j].kind == Same
      {
        assert s <= j < e;
      }
    } else if k < s + Head(s) {
      if s > 0 {
        assert lines[s - 1].kind != Same;
      }
    } else if e < |lines| {
      assert lines[e].kind != Same;
    }
  }

  lemma HiddenInRun(lines: seq<Line>, s: nat, e: nat, k: int)
    requires IsRun(lines, s, e) && s <= k < e
    ensures Hidden(lines, k) <==>
            e - s > Head(s) + Foot(e < |lines|) + 1 && s + Head(s) <= k < e - Foot(e < |lines|)
  {
    hide Far;
    FarInRun(lines, s, e, k);
    FarInRun(lines, s, e, k - 1);
    FarInRun(lines, s, e, k + 1);
  }

  // ---- The rows of one run ----

  function Shown(run: seq<Line>): (rows: seq<Row>)
    ensures |rows| == |run|
  {
    seq(|run|, k requires 0 <= k < |run| => LineRow(run[k]))
  }

  function RunRows(run: seq<Line>, head: nat, foot: nat, groupId: nat): seq<Row> {
    if |run| <= head + foot + 1 then Shown(run)
    else Shown(run[..head]) + [Gap(groupId, run[head..|run| - foot])] + Shown(run[|run| - foot..])
  }

  lemma AppendLine(rows: seq<Row>, line: Line)
    requires WellFormed(rows)
    ensures var all := rows + [LineRow(line)];
            && WellFormed(all) && GapCount(all) == GapCount(rows)
            && Expand(all) == Expand(rows) + [line]
            && Visible(all) == Visible(rows) + [true]
  {
    var all := rows + [LineRow(line)];
    assert all[..|all| - 1] == rows;
    assert Flags(1, true) == [true];
  }

  lemma {:induction false} AppendShown(rows: seq<Row>, run: seq<Line>)
    requires WellFormed(rows)
    ensures WellFormed(rows + Shown(run)) && GapCount(rows + Shown(run)) == GapCount(rows)
    ensures Expand(rows + Shown(run)) == Expand(rows) + run
    ensures Visible(rows + Shown(run)) == Visible(rows) + Flags(|run|, true)
  {
    hide WellFormed, Expand, Visible, GapCount;
    if run == [] {
      assert rows + Shown(run) == rows;
      assert Visible(rows) + Flags(0, true) == Visible(rows);
    } else {
      var init, last := run[..|run| - 1], run[|run| - 1];
      AppendShown(rows, init);
      AppendLine(rows + Shown(init), last);
      assert rows + Shown(run) == rows + Shown(init) + [LineRow(last)];
      assert Expand(rows) + init + [last] == Expand(rows) + run by { assert init + [last] == run; }
      assert Flags(|run|, true) == Flags(|init|, true) + [true];
    }
  }

  lemma AppendGap(rows: seq<Row>, groupId: nat, lines: seq<Line>)
    requires WellFormed(rows) && groupId == GapCount(rows) + 1 && |lines| >= 2
    requires rows != [] ==> rows[|rows| - 1].LineRow?
    requires forall k :: 0 <= k < |lines| ==> lines[k].kind == Same
    ensures var all := rows + [Gap(groupId, lines)];
            && WellFormed(all) && GapCount(all) == groupId
            && Expand(all) == Expand(rows) + lines
            && Visible(all) == Visible(rows) + Flags(|lines|, false)
  {
    var all := rows + [Gap(groupId, lines)];
    assert all[..|all| - 1] == rows;
  }

  /** Which lines of a run of n stay visible. */
  function Mask(n: nat, head: nat, foot: nat): (r: seq<bool>)
    ensures |r| == n
  {
    seq(n, k => n <= head + foot + 1 || k < head || n - foot <= k)
  }

  lemma MaskInParts(n: nat, head: nat, foot: nat)
    ensures Mask(n, head, foot) ==
            if n <= head + foot + 1 then Flags(n, true)
            else Flags(head, true) + Flags(n - head - foot, false) + Flags(foot, true)
  {
  }

  lemma JoinRight<T>(all: seq<T>, a: seq<T>, b: seq<T>, c: seq<T>)
    ensures all + a + b + c == all + (a + b + c)
  {
  }

  /** What a run does to the rows before it. */
  ghost predicate RunAppended(rows: seq<Row>, all: seq<Row>, run: seq<Line>, head: nat, foot: nat) {
    && WellFormed(all)
    && GapCount(all) == GapCount(rows) + (if |run| <= head + foot + 1 then 0 else 1)
    && Expand(all) == Expand(rows) + run
    && Visible(all) == Visible(rows) + Mask(|run|, head, foot)
    && (foot > 0 && run != [] ==> all != [] && all[|all| - 1].LineRow?)
  }

  lemma AppendShortRun(rows: seq<Row>, run: seq<Line>, head: nat, foot: nat)
    requires WellFormed(rows) && |run| <= head + foot + 1
    ensures RunAppended(rows, rows + Shown(run), run, head, foot)
  {
    hide WellFormed, Expand, Visible, GapCount, Shown, Mask, Flags;
    MaskInParts(|run|, head, foot);
    AppendShown(rows, run);
    ShownAreLines(run);
  }

  /** The part of a folded run up to and with its gap. */
  lemma AppendHeadAndGap(rows: seq<Row>, run: seq<Line>, head: nat, foot: nat)
    requires WellFormed(rows) && (rows != [] ==> rows[|rows| - 1].LineRow?) && |run| > head + foot + 1
    requires forall k :: 0 <= k < |run| ==> run[k].kind == Same
    ensures var hidden := run[head..|run| - foot];
            var middle := rows + Shown(run[..head]) + [Gap(GapCount(rows) + 1, hidden)];
            && WellFormed(middle) && GapCount(middle) == GapCount(rows) + 1
            && Expand(middle) == Expand(rows) + run[..head] + hidden
            && Visible(middle) == Visible(rows) + Flags(head, true) + Flags(|hidden|, false)
  {
    hide WellFormed, Expand, Visible, GapCount, Shown, Flags;
    var upper := rows + Shown(run[..head]);
    AppendShown(rows, run[..head]);
    ShownAreLines(run[..head]);
    assert upper != [] ==> upper[|upper| - 1].LineRow?;
    AppendGap(upper, GapCount(rows) + 1, run[head..|run| - foot]);
  }

  lemma JoinThree<T>(all: seq<T>, a: seq<T>, b: seq<T>, c: seq<T>, whole: seq<T>)
    requires a + b + c == whole
    ensures all + a + b + c == all + whole
  {
  }

  lemma SplitsInThree<T>(run: seq<T>, head: nat, foot: nat)
    requires head + foot <= |run|
    ensures run[..head] + run[head..|run| - foot] + run[|run| - foot..] == run
  {
  }

  lemma EndsWithLine(rows: seq<Row>, run: seq<Line>)
    ensures run != [] ==> var all := rows + Shown(run); all != [] && all[|all| - 1].LineRow?
  {
    ShownAreLines(run);
  }

  /** The part of a folded run behind its gap. */
  lemma AppendFoot(rows: seq<Row>, middle: seq<Row>, run: seq<Line>, head: nat, foot: nat)
    requires WellFormed(middle) && |run| > head + foot + 1 && GapCount(middle) == GapCount(rows) + 1
    requires Expand(middle) == Expand(rows) + run[..head] + run[head..|run| - foot]
    requires Visible(middle) == Visible(rows) + Flags(head, true) + Flags(|run| - head - foot, false)
    ensures RunAppended(rows, middle + Shown(run[|run| - foot..]), run, head, foot)
  {
    hide WellFormed, Expand, Visible, GapCount, Shown, Mask, Flags;
    var end := run[|run| - foot..];
    AppendShown(middle, end);
    EndsWithLine(middle, end);
    SplitsInThree(run, head, foot);
    JoinThree(Expand(rows), run[..head], run[head..|run| - foot], end, run);
    MaskInParts(|run|, head, foot);
    JoinThree(Visible(rows), Flags(head, true), Flags(|run| - head - foot, false), Flags(foot, true), Mask(|run|, head, foot));
  }

  lemma AppendFoldedRun(rows: seq<Row>, run: seq<Line>, head: nat, foot: nat)
    requires WellFormed(rows) && (rows != [] ==> rows[|rows| - 1].LineRow?) && |run| > head + foot + 1
    requires forall k :: 0 <= k < |run| ==> run[k].kind == Same
    ensures var gap := [Gap(GapCount(rows) + 1, run[head..|run| - foot])];
            RunAppended(rows, rows + Shown(run[..head]) + gap + Shown(run[|run| - foot..]), run, head, foot)
  {
    hide WellFormed, Expand, Visible, GapCount, Shown, Flags, RunAppended;
    AppendHeadAndGap(rows, run, head, foot);
    AppendFoot(rows, rows + Shown(run[..head]) + [Gap(GapCount(rows) + 1, run[head..|run| - foot])], run, head, foot);
  }

  /** A run adds its lines, and hides those between head and foot if that saves at least one row. */
  lemma AppendRun(rows: seq<Row>, run: seq<Line>, head: nat, foot: nat)
    requires WellFormed(rows) && (rows != [] ==> rows[|rows| - 1].LineRow?)
    requires forall k :: 0 <= k < |run| ==> run[k].kind == Same
    ensures RunAppended(rows, rows + RunRows(run, head, foot, GapCount(rows) + 1), run, head, foot)
  {
    hide WellFormed, RunAppended, Shown, RunRows, GapCount;
    if |run| <= head + foot + 1 {
      AppendShortRun(rows, run, head, foot);
      RowsOfShortRun(rows, run, head, foot, GapCount(rows) + 1);
    } else {
      AppendFoldedRun(rows, run, head, foot);
      RowsOfFoldedRun(rows, run, head, foot, GapCount(rows) + 1);
    }
  }

  lemma RowsOfShortRun(rows: seq<Row>, run: seq<Line>, head: nat, foot: nat, groupId: nat)
    requires |run| <= head + foot + 1
    ensures rows + RunRows(run, head, foot, groupId) == rows + Shown(run)
  {
  }

  lemma RowsOfFoldedRun(rows: seq<Row>, run: seq<Line>, head: nat, foot: nat, groupId: nat)
    requires |run| > head + foot + 1
    ensures rows + RunRows(run, head, foot, groupId) ==
            rows + Shown(run[..head]) + [Gap(groupId, run[head..|run| - foot])] + Shown(run[|run| - foot..])
  {
    hide Shown;
    JoinRight(rows, Shown(run[..head]), [Gap(groupId, run[head..|run| - foot])], Shown(run[|run| - foot..]));
  }

  lemma ShownAreLines(run: seq<Line>)
    ensures forall k :: 0 <= k < |run| ==> Shown(run)[k].LineRow?
  {
  }

  // ---- The loop ----

  /** The rows so far show the lines before base, and only what has to be visible of them or may be. */
  ghost predicate ShowsPrefix(rows: seq<Row>, lines: seq<Line>, base: nat) {
    && base <= |lines|
    && WellFormed(rows)
    && Expand(rows) == lines[..base]
    && forall k :: 0 <= k < base ==> (Visible(rows)[k] <==> !Hidden(lines, k))
  }

  lemma RunExtendsPrefix(rows: seq<Row>, lines: seq<Line>, s: nat, e: nat)
    requires ShowsPrefix(rows, lines, s) && IsRun(lines, s, e)
    requires rows != [] ==> rows[|rows| - 1].LineRow?
    ensures var all := rows + RunRows(lines[s..e], Head(s), Foot(e < |lines|), GapCount(rows) + 1);
            && ShowsPrefix(all, lines, e)
            && GapCount(all) == GapCount(rows) + (if e - s <= Head(s) + Foot(e < |lines|) + 1 then 0 else 1)
            && (e < |lines| && s < e ==> all[|all| - 1].LineRow?)
  {
    hide Hidden, WellFormed, Expand, GapCount, RunRows;
    AppendRun(rows, lines[s..e], Head(s), Foot(e < |lines|));
    forall k | s <= k < e
      ensures Hidden(lines, k) <==>
              e - s > Head(s) + Foot(e < |lines|) + 1 && s + Head(s) <= k < e - Foot(e < |lines|)
    {
      HiddenInRun(lines, s, e, k);
    }
    assert lines[..s] + lines[s..e] == lines[..e];
  }

  lemma ChangeExtendsPrefix(rows: seq<Row>, lines: seq<Line>, i: nat)
    requires i < |lines| && ShowsPrefix(rows, lines, i) && lines[i].kind != Same
    ensures ShowsPrefix(rows + [LineRow(lines[i])], lines, i + 1)
    ensures GapCount(rows + [LineRow(lines[i])]) == GapCount(rows)
  {
    AppendLine(rows, lines[i]);
    assert lines[..i] + [lines[i]] == lines[..i + 1];
    assert !Far(lines, i);
  }

  /** What flush does with the pending run that starts at sameStart, or with none if that is negative. */
  method Flush(lines: seq<Line>, rows: seq<Row>, sameStart: int, groupId: nat, end: nat, endIsChange: bool)
    returns (rows': seq<Row>, groupId': nat)
    requires sameStart < end <= |lines|
    ensures sameStart < 0 ==> rows' == rows && groupId' == groupId
    ensures sameStart >= 0 ==>
              && rows' == rows + RunRows(lines[sameStart..end], Head(sameStart), Foot(endIsChange), groupId + 1)
              && groupId' == groupId + if end - sameStart <= Head(sameStart) + Foot(endIsChange) + 1 then 0 else 1
  {
    hide Shown, RunRows;
    rows', groupId' := rows, groupId;
    if sameStart >= 0 {
      var run := lines[sameStart..end];
      var headCount := if sameStart == 0 then 0 else CONTEXT;
      var tailCount := if endIsChange then CONTEXT else 0;
      if |run| <= headCount + tailCount + 1 {
        rows' := rows' + Shown(run);
        RowsOfShortRun(rows, run, headCount, tailCount, groupId + 1);
      } else {
        rows' := rows' + Shown(run[..headCount]);
        var hidden := run[headCount..|run| - tailCount];
        groupId' := groupId' + 1;
        rows' := rows' + [Gap(groupId', hidden)];
        rows' := rows' + Shown(run[|run| - tailCount..]);
        RowsOfFoldedRun(rows, run, headCount, tailCount, groupId + 1);
      }
    }
  }

  /** The view is lossless, and a line is out of sight exactly when no changed line is within three lines of it
      and the same goes for a line next to it. */
  method Collapse(lines: seq<Line>) returns (rows: seq<Row>)
    ensures WellFormed(rows)
    ensures Expand(rows) == lines
    ensures forall k :: 0 <= k < |lines| ==> (Visible(rows)[k] <==> !Hidden(lines, k))
  {
    hide WellFormed, Expand, GapCount, RunRows, Hidden, Visible;
    rows := [];
    var sameStart, groupId := -1, 0;
    NothingShown(lines);
    for i := 0 to |lines|
      invariant -1 <= sameStart < i
      invariant forall k :: sameStart >= 0 && sameStart <= k < i ==> lines[k].kind == Same
      invariant var s := if sameStart >= 0 then sameStart else i;
                && ShowsPrefix(rows, lines, s)
                && (s > 0 ==> lines[s - 1].kind != Same)
                && (rows != [] ==> rows[|rows| - 1].LineRow?)
      invariant groupId == GapCount(rows)
    {
      if lines[i].kind == Same {
        if sameStart < 0 {
          sameStart := i;
        }
      } else {
        if sameStart >= 0 {
          RunExtendsPrefix(rows, lines, sameStart, i);
        }
        rows, groupId := Flush(lines, rows, sameStart, groupId, i, true);
        sameStart := -1;
        ChangeExtendsPrefix(rows, lines, i);
        rows := rows + [LineRow(lines[i])];
      }
    }
    if sameStart >= 0 {
      RunExtendsPrefix(rows, lines, sameStart, |lines|);
    }
    rows, groupId := Flush(lines, rows, sameStart, groupId, |lines|, false);
    assert lines[..|lines|] == lines;
  }

  lemma NothingShown(lines: seq<Line>)
    ensures ShowsPrefix([], lines, 0) && GapCount([]) == 0
  {
  }

  // ---- What follows for every diff ----

  /** A changed line and the three lines on either side of it are never hidden. */
  lemma ContextIsNeverHidden(lines: seq<Line>, changed: nat, k: nat)
    requires changed < |lines| && k < |lines| && lines[changed].kind != Same
    requires changed - 3 <= k <= changed + 3
    ensures !Hidden(lines, k)
  {
  }

  /** Two neighbouring lines with nothing changed on them or within three lines of either are both hidden, and a line
      is hidden only as one of such two. */
  lemma FarNeighboursAreHidden(lines: seq<Line>, k: nat)
    requires k < |lines|
    ensures k + 1 < |lines| && (forall j :: 0 <= j < |lines| && k - 3 <= j <= k + 4 ==> lines[j].kind == Same) ==>
              Hidden(lines, k) && Hidden(lines, k + 1)
    ensures Hidden(lines, k) ==>
              || (k + 1 < |lines| && forall j :: 0 <= j < |lines| && k - 3 <= j <= k + 4 ==> lines[j].kind == Same)
              || (k > 0 && forall j :: 0 <= j < |lines| && k - 4 <= j <= k + 3 ==> lines[j].kind == Same)
  {
    if Hidden(lines, k) {
      var near := if Far(lines, k + 1) then k + 1 else k - 1;
      assert Far(lines, near);
    }
  }

  /** Two well-formed views of the same lines that hide the same ones are the same rows, group ids included. */
  lemma {:induction false} ViewIsDetermined(a: seq<Row>, b: seq<Row>)
    requires WellFormed(a) && WellFormed(b)
    requires Expand(a) == Expand(b) && Visible(a) == Visible(b)
    ensures a == b
  {
    if a == [] || b == [] {
      NonEmptyRowsShowSomething(a);
      NonEmptyRowsShowSomething(b);
    } else {
      hide WellFormed, Expand, Visible, GapCount, Piece, IsEnd;
      var initA, initB, x, y := a[..|a| - 1], b[..|b| - 1], a[|a| - 1], b[|b| - 1];
      LastRowShows(a);
      LastRowShows(b);
      SameEnd(Visible(a), x.LineRow?, |Piece(x)|, y.LineRow?, |Piece(y)|);
      SameParts(Expand(initA), Piece(x), Expand(initB), Piece(y));
      ViewIsDetermined(initA, initB);
      SameRow(x, y);
      SameRows(a, b);
    }
  }

  lemma SameRows(a: seq<Row>, b: seq<Row>)
    requires a != [] && b != [] && a[..|a| - 1] == b[..|b| - 1] && a[|a| - 1] == b[|b| - 1]
    ensures a == b
  {
    assert a == a[..|a| - 1] + [a[|a| - 1]] && b == b[..|b| - 1] + [b[|b| - 1]];
  }

  lemma SameParts<T>(a: seq<T>, x: seq<T>, b: seq<T>, y: seq<T>)
    requires a + x == b + y && |x| == |y|
    ensures a == b && x == y
  {
    assert |a| == |b|;
    assert (a + x)[..|a|] == a && (b + y)[..|a|] == b;
    assert (a + x)[|a|..] == x && (b + y)[|a|..] == y;
  }

  lemma SameRow(x: Row, y: Row)
    requires x.LineRow? == y.LineRow? && Piece(x) == Piece(y)
    requires x.Gap? && y.Gap? ==> x.groupId == y.groupId
    ensures x == y
  {
    if x.LineRow? {
      assert Piece(x)[0] == x.line && Piece(y)[0] == y.line;
    }
  }

  /** An end that is either one visible line or a maximal stretch of invisible ones. */
  ghost predicate IsEnd(mask: seq<bool>, shown: bool, n: nat) {
    && 0 < n <= |mask|
    && (shown ==> n == 1 && mask[|mask| - 1])
    && (!shown ==> (forall k :: |mask| - n <= k < |mask| ==> !mask[k]) && (n < |mask| ==> mask[|mask| - n - 1]))
  }

  lemma SameEnd(mask: seq<bool>, shown: bool, n: nat, shown': bool, n': nat)
    requires IsEnd(mask, shown, n) && IsEnd(mask, shown', n')
    ensures shown == shown' && n == n'
  {
  }

  lemma NonEmptyRowsShowSomething(rows: seq<Row>)
    requires WellFormed(rows)
    ensures rows != [] ==> Expand(rows) != []
  {
  }

  /** The last row is a line if the last line is visible, and otherwise a gap over the whole invisible end. */
  lemma LastRowShows(rows: seq<Row>)
    requires WellFormed(rows) && rows != []
    ensures var n, x := |Expand(rows)|, rows[|rows| - 1];
            && 0 < |Piece(x)| <= n
            && Expand(rows) == Expand(rows[..|rows| - 1]) + Piece(x)
            && Visible(rows)[..n - |Piece(x)|] == Visible(rows[..|rows| - 1])
            && IsEnd(Visible(rows), x.LineRow?, |Piece(x)|)
            && WellFormed(rows[..|rows| - 1])
            && (x.Gap? ==> x.groupId == GapCount(rows[..|rows| - 1]) + 1)
  {
    var x := rows[|rows| - 1];
    var init := rows[..|rows| - 1];
    var flags := Flags(|Piece(x)|, x.LineRow?);
    assert Visible(rows) == Visible(init) + flags;
    if x.Gap? && |rows| >= 2 {
      hide Expand, GapCount, Piece;
      assert init[|init| - 1].LineRow?;
      LineIsShown(init);
    }
  }

  lemma LineIsShown(rows: seq<Row>)
    requires rows != [] && rows[|rows| - 1].LineRow?
    ensures Visible(rows) != [] && Visible(rows)[|Visible(rows)| - 1]
  {
  }
}

/** What the message area's `draw` puts on screen. Instead of rendering,
    drawing yields the list of placements it would render: for each drawn
    line, its index in the line list and the screen row of its top. Lines
    are stacked bottom-up, newest at the bottom, starting from a given line
    index and going back one line at a time until a line no longer fits
    above the rows already used or the lowest drawable index is passed. */
module Layout {
  import opened Lines
  import opened Scrolling

  /** One drawn line: its index in the line list and its top screen row. */
  datatype Placement = Placement(lineIdx: int, row: int)

  /** The screen row holding the last row of a placed line. */
  function BottomRow(lines: seq<Line>, measure: Measure, width: int, p: Placement): int
    requires 0 <= p.lineIdx < |lines|
  {
    p.row + measure(lines[p.lineIdx], width) - 1
  }

  /** Total number of rows that lines `lo` to `hi` (inclusive) take. */
  function Span(lines: seq<Line>, measure: Measure, width: int, lo: nat, hi: int): int
    requires hi < |lines|
    decreases hi - lo + 1
  {
    if hi < lo then 0 else Span(lines, measure, width, lo, hi - 1) + measure(lines[hi], width)
  }

  /** `plan` draws lines `start`, `start - 1`, ... in that order, none below
      `lowest`, packed bottom-up so that the lines drawn so far fill the rows
      up to `bottom` exactly, and none reaching above row `posY`. */
  ghost predicate IsStack(lines: seq<Line>, measure: Measure, width: int, posY: int,
                          lowest: nat, start: int, bottom: int, plan: seq<Placement>)
  {
    && start < |lines|
    && forall k :: 0 <= k < |plan| ==>
         && plan[k].lineIdx == start - k
         && lowest <= start - k
         && plan[k].row == bottom + 1 - Span(lines, measure, width, start - k, start)
         && posY <= plan[k].row
  }

  /** The stack cannot be extended: the next line down the list is below
      `lowest`, or stacking it too would reach above row `posY`. */
  ghost predicate IsComplete(lines: seq<Line>, measure: Measure, width: int, posY: int,
                             lowest: nat, start: int, bottom: int, plan: seq<Placement>)
    requires IsStack(lines, measure, width, posY, lowest, start, bottom, plan)
  {
    var next := start - |plan|;
    next < lowest || bottom + 1 - Span(lines, measure, width, next, start) < posY
  }

  /** The walk of `draw`: from line `idx` with lowest free row `row`, place
      the line if it is not below `lowest` and fits, then continue with the
      line before it and the row above it. */
  function Walk(lines: seq<Line>, measure: Measure, width: int, posY: int,
                lowest: nat, idx: int, row: int): seq<Placement>
    requires idx < |lines|
    decreases idx + 1
  {
    if idx >= lowest && row >= posY then
      var lineRow := row - measure(lines[idx], width) + 1;
      if lineRow < posY then []
      else [Placement(idx, lineRow)] + Walk(lines, measure, width, posY, lowest, idx - 1, lineRow - 1)
    else []
  }

  /** The walk yields a complete stack, and by StackUnique the only one. */
  lemma {:induction false} WalkIsCompleteStack(lines: seq<Line>, measure: Measure, width: int, posY: int,
                                               lowest: nat, idx: int, row: int)
    requires idx < |lines|
    ensures IsStack(lines, measure, width, posY, lowest, idx, row,
                    Walk(lines, measure, width, posY, lowest, idx, row))
    ensures IsComplete(lines, measure, width, posY, lowest, idx, row,
                       Walk(lines, measure, width, posY, lowest, idx, row))
    decreases idx + 1
  {
    if idx >= lowest && row >= posY {
      var lineRow := row - measure(lines[idx], width) + 1;
      if lineRow >= posY {
        WalkIsCompleteStack(lines, measure, width, posY, lowest, idx - 1, lineRow - 1);
        StackCons(lines, measure, width, posY, lowest, idx, row,
                  Walk(lines, measure, width, posY, lowest, idx - 1, lineRow - 1));
      }
    }
  }

  /** A stack from line `idx - 1` below which line `idx` fits, with line
      `idx` put under it, is a stack from line `idx`. */
  lemma StackCons(lines: seq<Line>, measure: Measure, width: int, posY: int,
                  lowest: nat, idx: int, row: int, rest: seq<Placement>)
    requires lowest <= idx < |lines|
    requires posY <= row - measure(lines[idx], width) + 1
    requires IsStack(lines, measure, width, posY, lowest, idx - 1, row - measure(lines[idx], width), rest)
    ensures IsStack(lines, measure, width, posY, lowest, idx, row,
                    [Placement(idx, row - measure(lines[idx], width) + 1)] + rest)
  {
    var plan := [Placement(idx, row - measure(lines[idx], width) + 1)] + rest;
    forall k | 0 <= k < |plan|
      ensures plan[k].lineIdx == idx - k && lowest <= idx - k
      ensures plan[k].row == row + 1 - Span(lines, measure, width, idx - k, idx)
      ensures posY <= plan[k].row
    {
      if k > 0 {
        assert plan[k] == rest[k - 1];
        assert lowest <= idx - k;
      } else {
        assert Span(lines, measure, width, idx, idx - 1) == 0;
      }
      assert Span(lines, measure, width, idx - k, idx)
          == Span(lines, measure, width, idx - k, idx - 1) + measure(lines[idx], width);
    }
  }

  /** Two complete stacks from the same start and bottom row are equal. */
  lemma StackUnique(lines: seq<Line>, measure: Measure, width: int, posY: int,
                    lowest: nat, start: int, bottom: int, p: seq<Placement>, q: seq<Placement>)
    requires IsStack(lines, measure, width, posY, lowest, start, bottom, p)
    requires IsComplete(lines, measure, width, posY, lowest, start, bottom, p)
    requires IsStack(lines, measure, width, posY, lowest, start, bottom, q)
    requires IsComplete(lines, measure, width, posY, lowest, start, bottom, q)
    ensures p == q
  {
    NotShorter(lines, measure, width, posY, lowest, start, bottom, p, q);
    NotShorter(lines, measure, width, posY, lowest, start, bottom, q, p);
  }

  /** A complete stack is at least as long as any stack with the same start
      and bottom row. */
  lemma NotShorter(lines: seq<Line>, measure: Measure, width: int, posY: int,
                   lowest: nat, start: int, bottom: int, p: seq<Placement>, q: seq<Placement>)
    requires IsStack(lines, measure, width, posY, lowest, start, bottom, p)
    requires IsComplete(lines, measure, width, posY, lowest, start, bottom, p)
    requires IsStack(lines, measure, width, posY, lowest, start, bottom, q)
    ensures |q| <= |p|
  {
    LongerMeansIncomplete(lines, measure, width, posY, lowest, start, bottom, p, q);
  }

  /** If some stack goes further than `p`, then `p` could have been
      extended. */
  lemma LongerMeansIncomplete(lines: seq<Line>, measure: Measure, width: int, posY: int,
                              lowest: nat, start: int, bottom: int, p: seq<Placement>, q: seq<Placement>)
    requires IsStack(lines, measure, width, posY, lowest, start, bottom, p)
    requires IsStack(lines, measure, width, posY, lowest, start, bottom, q)
    ensures |p| < |q| ==> !IsComplete(lines, measure, width, posY, lowest, start, bottom, p)
  {
    var n := |p|;
    if n < |q| {
      assert q[n].lineIdx == start - n && posY <= q[n].row;
    }
  }

  /** Lines `lo` to `hi` take the rows of line `lo` plus those of lines
      `lo + 1` to `hi`. */
  lemma {:induction false} SpanFromLow(lines: seq<Line>, measure: Measure, width: int, lo: nat, hi: int)
    requires lo <= hi < |lines|
    ensures Span(lines, measure, width, lo, hi)
            == measure(lines[lo], width) + Span(lines, measure, width, lo + 1, hi)
    decreases hi - lo
  {
    if lo < hi {
      SpanFromLow(lines, measure, width, lo, hi - 1);
    }
  }

  /** Dropping lines from the low end of a range never adds rows. */
  lemma {:induction false} SpanGrows(lines: seq<Line>, measure: Measure, width: int,
                                     lo: nat, lo': nat, hi: int)
    requires lo <= lo' && hi < |lines|
    ensures Span(lines, measure, width, lo', hi) <= Span(lines, measure, width, lo, hi)
    decreases hi - lo + 1
  {
    if lo <= hi {
      SpanGrows(lines, measure, width, lo, lo', hi - 1);
    }
  }

  /** A stack stays within rows `posY` to `bottom`, each line sits directly
      above the one drawn before it, and every line lies wholly above every
      line drawn before it, so no two share a row. */
  lemma StackInArea(lines: seq<Line>, measure: Measure, width: int, posY: int,
                    lowest: nat, start: int, bottom: int, plan: seq<Placement>)
    requires IsStack(lines, measure, width, posY, lowest, start, bottom, plan)
    ensures forall k :: 0 <= k < |plan| ==>
              posY <= plan[k].row && BottomRow(lines, measure, width, plan[k]) <= bottom
    ensures |plan| > 0 ==> BottomRow(lines, measure, width, plan[0]) == bottom
    ensures forall k :: 0 < k < |plan| ==>
              BottomRow(lines, measure, width, plan[k]) == plan[k - 1].row - 1
    ensures forall j, k :: 0 <= j < k < |plan| ==>
              BottomRow(lines, measure, width, plan[k]) < plan[j].row
  {
    forall k | 0 <= k < |plan|
      ensures BottomRow(lines, measure, width, plan[k])
              == bottom - Span(lines, measure, width, start - k + 1, start)
      ensures BottomRow(lines, measure, width, plan[k]) <= bottom
    {
      assert plan[k].lineIdx == start - k && lowest <= start - k;
      SpanFromLow(lines, measure, width, start - k, start);
      SpanGrows(lines, measure, width, start - k + 1, start + 1, start);
    }
    forall j, k | 0 <= j < k < |plan|
      ensures BottomRow(lines, measure, width, plan[k]) < plan[j].row
    {
      SpanGrows(lines, measure, width, start - k + 1, start - j, start);
    }
  }

  /** When lines `lowest` to `idx` fit in rows `posY` to `row` together,
      the walk draws every one of them. */
  lemma {:induction false} WalkDrawsAllThatFit(lines: seq<Line>, measure: Measure, width: int, posY: int,
                                               lowest: nat, idx: int, row: int)
    requires lowest <= idx + 1 && idx < |lines|
    requires Span(lines, measure, width, lowest, idx) <= row - posY + 1
    ensures |Walk(lines, measure, width, posY, lowest, idx, row)| == idx - lowest + 1
    decreases idx + 1
  {
    if idx >= lowest {
      var lineRow := row - measure(lines[idx], width) + 1;
      WalkDrawsAllThatFit(lines, measure, width, posY, lowest, idx - 1, lineRow - 1);
    }
  }

  /** `plan` draws lines `start`, `start - 1`, ... in that order, none
      below `lowest`, each inside rows `posY` to `bottom` and wholly above
      every line drawn before it. */
  ghost predicate InArea(lines: seq<Line>, measure: Measure, width: int, posY: int,
                         lowest: nat, start: int, bottom: int, plan: seq<Placement>)
  {
    && (forall k :: 0 <= k < |plan| ==>
          plan[k].lineIdx == start - k && lowest <= plan[k].lineIdx < |lines|)
    && (forall k :: 0 <= k < |plan| ==>
          posY <= plan[k].row && BottomRow(lines, measure, width, plan[k]) <= bottom)
    && (forall j, k :: 0 <= j < k < |plan| ==>
          BottomRow(lines, measure, width, plan[k]) < plan[j].row)
  }

  /** What `draw` renders from line `start` with the area's last row at
      `bottom` lies in the area, in line order, without overlap. */
  lemma WalkInArea(lines: seq<Line>, measure: Measure, width: int, posY: int,
                   lowest: nat, start: int, bottom: int, plan: seq<Placement>)
    requires start < |lines|
    requires plan == Walk(lines, measure, width, posY, lowest, start, bottom)
    ensures InArea(lines, measure, width, posY, lowest, start, bottom, plan)
  {
    WalkIsCompleteStack(lines, measure, width, posY, lowest, start, bottom);
    StackInArea(lines, measure, width, posY, lowest, start, bottom, plan);
  }

  /** With the guard as written (nothing below index 1), an area tall
      enough for every line still leaves the first line out. */
  lemma AsWrittenOmitsFirstLine(lines: seq<Line>, measure: Measure, width: int, posY: int, height: int)
    requires |lines| > 0
    requires Span(lines, measure, width, 0, |lines| - 1) <= height
    ensures var plan := Walk(lines, measure, width, posY, 1, |lines| - 1, posY + height - 1);
            |plan| == |lines| - 1 && forall p <- plan :: p.lineIdx != 0
  {
    var plan := Walk(lines, measure, width, posY, 1, |lines| - 1, posY + height - 1);
    SpanGrows(lines, measure, width, 0, 1, |lines| - 1);
    WalkDrawsAllThatFit(lines, measure, width, posY, 1, |lines| - 1, posY + height - 1);
    WalkIsCompleteStack(lines, measure, width, posY, 1, |lines| - 1, posY + height - 1);
    forall p <- plan ensures p.lineIdx != 0 {
      var k :| 0 <= k < |plan| && plan[k] == p;
    }
  }

  /** Scrolled back as far as `scroll_up` and `page_up` go, the walk starts
      at line 0: as written the area stays empty whatever the lines are,
      while with line 0 included the first line is drawn at the bottom. */
  lemma FullyScrolledBackShowsNothing(lines: seq<Line>, measure: Measure, width: int,
                                      posY: int, height: int)
    requires |lines| > 0
    ensures Walk(lines, measure, width, posY, 1, |lines| - 1 - MaxScroll(|lines|), posY + height - 1) == []
    ensures measure(lines[0], width) <= height ==>
              Walk(lines, measure, width, posY, 0, |lines| - 1 - MaxScroll(|lines|), posY + height - 1)
              == [Placement(0, posY + height - measure(lines[0], width))]
  {
  }

  /** The smallest instance: a single line that fits is not drawn at all as
      written, and drawn at the bottom of the area with line 0 included. */
  lemma OnlyLineHidden(l: Line, measure: Measure, width: int, posY: int, height: int)
    requires measure(l, width) <= height
    ensures Walk([l], measure, width, posY, 1, 0, posY + height - 1) == []
    ensures Walk([l], measure, width, posY, 0, 0, posY + height - 1)
            == [Placement(0, posY + height - measure(l, width))]
  {
  }

  /** With line 0 included, an area tall enough for every line shows them
      all, newest at the bottom and the first line at the top. */
  lemma CorrectedDrawsEveryLine(lines: seq<Line>, measure: Measure, width: int, posY: int, height: int)
    requires |lines| > 0
    requires Span(lines, measure, width, 0, |lines| - 1) <= height
    ensures var plan := Walk(lines, measure, width, posY, 0, |lines| - 1, posY + height - 1);
            && |plan| == |lines|
            && (forall k :: 0 <= k < |plan| ==> plan[k].lineIdx == |lines| - 1 - k)
            && plan[0].row == posY + height - measure(lines[|lines| - 1], width)
  {
    WalkDrawsAllThatFit(lines, measure, width, posY, 0, |lines| - 1, posY + height - 1);
    WalkIsCompleteStack(lines, measure, width, posY, 0, |lines| - 1, posY + height - 1);
  }

  /** One step of the walk: a line that is not below `lowest` and fits is
      drawn with its top at `lineRow`, and the walk goes on from the line
      before it and the row above. */
  lemma WalkStep(lines: seq<Line>, measure: Measure, width: int, posY: int,
                 lowest: nat, idx: int, row: int, lineRow: int, done: seq<Placement>)
    requires lowest <= idx < |lines|
    requires lineRow == row - measure(lines[idx], width) + 1 && posY <= lineRow
    ensures done + Walk(lines, measure, width, posY, lowest, idx, row)
            == (done + [Placement(idx, lineRow)])
               + Walk(lines, measure, width, posY, lowest, idx - 1, lineRow - 1)
  {
    var rest := Walk(lines, measure, width, posY, lowest, idx - 1, lineRow - 1);
    assert Walk(lines, measure, width, posY, lowest, idx, row) == [Placement(idx, lineRow)] + rest;
    assert done + ([Placement(idx, lineRow)] + rest) == (done + [Placement(idx, lineRow)]) + rest;
  }
}

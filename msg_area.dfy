/** The message scrollback area of the terminal UI: the finished lines of
    the conversation, the line still being written, the size of the area on
    screen, and how far the view is scrolled back. */
module Tui {
  import opened Lines
  import opened Scrolling
  import opened Layout

  class MsgArea {
    var lines: seq<Line>

    // Rendering related
    var width: int
    var height: int

    /** Vertical scroll: how many lines back from the last line the line at
        the bottom of the area is meant to be. At 0 the newest line is meant to
        be at the bottom; Draw as written falls short of this (Layout.OnlyLineHidden). */
    var scroll: int

    /** The line being filled; it is not shown until it is flushed. */
    var lineBuf: Line

    /** The scroll offset names a line, or is 0 when there are no lines. */
    ghost predicate Valid()
      reads this
    {
      InRange(scroll, |lines|)
    }

    /** `MsgArea::new`: an empty area of the given size, scrolled to the
        bottom. */
    constructor (width: int, height: int)
      ensures Valid()
      ensures lines == [] && lineBuf == Empty && scroll == 0
      ensures this.width == width && this.height == height
    {
      lines := [];
      this.width := width;
      this.height := height;
      scroll := 0;
      lineBuf := Empty;
    }

    /** `resize`: a new size; the contents and the scroll offset stay. */
    method Resize(width: int, height: int)
      modifies this
      ensures this.width == width && this.height == height
      ensures lines == old(lines) && scroll == old(scroll) && lineBuf == old(lineBuf)
      ensures old(Valid()) ==> Valid()
    {
      this.width := width;
      this.height := height;
    }

    /** `draw` as the source writes it: walk back from the line `scroll`
        lines before the last, stacking lines bottom-up from the last row of
        the area, while the line index is positive and the next line fits.
        Yields each drawn line with the row of its top instead of rendering
        it. The source reads the line list unchecked; every index it reads
        is in bounds for any non-negative offset, which is all it needs.
        Layout.WalkInArea and Layout.StackUnique say what the result is.
        Line 0 is never drawn (see DrawAll). The loop reads a copy of the
        line list and the width, which do not change while drawing. */
    method Draw(measure: Measure, posY: int) returns (plan: seq<Placement>)
      requires 0 <= scroll
      ensures plan == Walk(lines, measure, width, posY, 1, |lines| - 1 - scroll, posY + height - 1)
    {
      var ls, w := lines, width;
      ghost var start, bottom := |ls| - 1 - scroll, posY + height - 1;
      var row := posY + height - 1;
      var lineIdx := |ls| - 1 - scroll;
      plan := [];
      while lineIdx > 0 && row >= posY
        invariant lineIdx < |ls|
        invariant Walk(ls, measure, w, posY, 1, start, bottom)
                  == plan + Walk(ls, measure, w, posY, 1, lineIdx, row)
        decreases lineIdx
      {
        var line := ls[lineIdx];
        var lineHeight := measure(line, w);
        var lineRow := row - lineHeight + 1;
        if lineRow < posY {
          break;
        }
        WalkStep(ls, measure, w, posY, 1, lineIdx, row, lineRow, plan);
        plan := plan + [Placement(lineIdx, lineRow)];
        row := lineRow - 1;
        lineIdx := lineIdx - 1;
      }
      assert Walk(ls, measure, w, posY, 1, lineIdx, row) == [];
      assert plan == Walk(ls, measure, w, posY, 1, start, bottom);
    }

    /** `draw` with the guard `line_idx >= 0`, which also draws line 0: with
        the scroll offset at 0 the newest line ends on the area's last row
        when it fits, as the documentation of `scroll` says
        (Layout.CorrectedDrawsEveryLine). */
    method DrawAll(measure: Measure, posY: int) returns (plan: seq<Placement>)
      requires 0 <= scroll
      ensures plan == Walk(lines, measure, width, posY, 0, |lines| - 1 - scroll, posY + height - 1)
    {
      var ls, w := lines, width;
      ghost var start, bottom := |ls| - 1 - scroll, posY + height - 1;
      var row := posY + height - 1;
      var lineIdx := |ls| - 1 - scroll;
      plan := [];
      while lineIdx >= 0 && row >= posY
        invariant lineIdx < |ls|
        invariant Walk(ls, measure, w, posY, 0, start, bottom)
                  == plan + Walk(ls, measure, w, posY, 0, lineIdx, row)
        decreases lineIdx + 1
      {
        var line := ls[lineIdx];
        var lineHeight := measure(line, w);
        var lineRow := row - lineHeight + 1;
        if lineRow < posY {
          break;
        }
        WalkStep(ls, measure, w, posY, 0, lineIdx, row, lineRow, plan);
        plan := plan + [Placement(lineIdx, lineRow)];
        row := lineRow - 1;
        lineIdx := lineIdx - 1;
      }
      assert Walk(ls, measure, w, posY, 0, lineIdx, row) == [];
      assert plan == Walk(ls, measure, w, posY, 0, start, bottom);
    }

    /** `scroll_up`: one line further back, unless the first line is
        already at the bottom. */
    method ScrollUp()
      modifies this
      ensures scroll == Scrolling.ScrollUp(old(scroll), |lines|)
      ensures lines == old(lines) && lineBuf == old(lineBuf)
      ensures width == old(width) && height == old(height)
      ensures old(Valid()) ==> Valid()
    {
      if scroll < |lines| - 1 {
        scroll := scroll + 1;
      }
    }

    /** `scroll_down`: one line nearer the newest line, never below 0. */
    method ScrollDown()
      modifies this
      ensures scroll == Scrolling.ScrollDown(old(scroll))
      ensures lines == old(lines) && lineBuf == old(lineBuf)
      ensures width == old(width) && height == old(height)
      ensures old(Valid()) ==> Valid()
    {
      if scroll > 0 {
        scroll := scroll - 1;
      }
    }

    /** `page_up`: ten lines further back, clamped into range; it restores
        the invariant from any offset. */
    method PageUp()
      modifies this
      ensures scroll == Scrolling.PageUp(old(scroll), |lines|)
      ensures lines == old(lines) && lineBuf == old(lineBuf)
      ensures width == old(width) && height == old(height)
      ensures Valid()
    {
      scroll := Max(0, Min(|lines| - 1, scroll + Page));
    }

    /** `page_down`: ten lines nearer the newest line, never below 0. */
    method PageDown()
      modifies this
      ensures scroll == Scrolling.PageDown(old(scroll))
      ensures lines == old(lines) && lineBuf == old(lineBuf)
      ensures width == old(width) && height == old(height)
      ensures old(Valid()) ==> Valid()
    {
      scroll := Max(0, scroll - Page);
    }

    /** `add_text`: appends styled text to the line being filled; nothing
        else changes. */
    method AddText(text: string, style: StyleRef)
      modifies this
      ensures lineBuf == Lines.AddText(old(lineBuf), text, style)
      ensures lines == old(lines) && scroll == old(scroll)
      ensures width == old(width) && height == old(height)
      ensures old(Valid()) ==> Valid()
    {
      lineBuf := Lines.AddText(lineBuf, text, style);
    }

    /** `flush_line`: the line being filled becomes the newest line and a
        fresh empty line takes its place. */
    method FlushLine()
      modifies this
      ensures lines == old(lines) + [old(lineBuf)]
      ensures |lines| == |old(lines)| + 1
      ensures lineBuf == Empty
      ensures scroll == old(scroll)
      ensures width == old(width) && height == old(height)
      ensures old(Valid()) ==> Valid()
    {
      lines := lines + [lineBuf];
      lineBuf := Empty;
    }
  }

  /** `std::cmp::max` on integers. */
  function Max(a: int, b: int): int
  {
    if a < b then b else a
  }

  /** `std::cmp::min` on integers. */
  function Min(a: int, b: int): int
  {
    if a < b then a else b
  }
}

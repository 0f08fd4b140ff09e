# Message scrollback area of the terminal chat client

This project models the message area of the client's terminal UI. The area
is an object that holds four things:

- the finished lines of the conversation;
- the line still being written;
- its width and height on screen;
- a scroll offset.

The scroll offset counts lines back from the newest one. The documentation
of `scroll` (src/tui/msg_area/mod.rs:19-21) promises that at offset 0 the
newest line sits at the bottom of the area. `draw` as written delivers that
only when there are at least two lines and the newest one fits in the area.
With a single line nothing is drawn (see "## Findings"). When the newest
line is taller than the area, the walk stops at it and the area stays blank.

Drawing walks back through the lines from the one `scroll` lines before the
last. It stacks them bottom-up from the area's last row and stops when a line
no longer fits or the index guard fails. The model yields the list of
placements the walk renders, each a line index and the screen row of that
line's top, instead of calling the terminal library.

Files:

- `line.dfy` (module `Lines`): the line type. A line is the list of styled
  fragments added to it. Its rendered height is a parameter `Measure` that
  always returns at least 1.
- `scrolling.dfy` (module `Scrolling`): the scroll arithmetic of the four
  scroll operations, as functions. It also proves how they relate: clamping,
  inverse pairs, and that a page is ten single-line steps.
- `layout.dfy` (module `Layout`): the draw walk (`Walk`). It also holds a
  declarative description of a correct drawing: the k-th drawn line is line
  `start - k`, and its top row is `bottom + 1` minus the total height of lines
  `start - k` to `start`. The file holds the proofs that the walk produces
  exactly that drawing, and that the drawing stays inside the area.
- `msg_area.dfy` (module `Tui`): the class `MsgArea`. Its fields, methods and
  the `draw` loop follow the source. The invariant `Valid()` is
  `0 <= scroll <= max(0, len - 1)`.

## Model

| member | source | states |
|---|---|---|
| `Tui.MsgArea.constructor` | src/tui/msg_area/mod.rs:28-36 | A new area has no lines, an empty line buffer, scroll 0 and the given width and height, and satisfies the scroll invariant. |
| `Tui.MsgArea.Resize` | src/tui/msg_area/mod.rs:38-41 | Width and height take the new values. Lines, scroll and the line buffer are unchanged, so the invariant is kept. |
| `Tui.MsgArea.Draw` | src/tui/msg_area/mod.rs:43-66 | For any non-negative offset, the loop as written yields exactly `Layout.Walk` from line `len-1-scroll` and row `pos_y+height-1`, with guard `line_idx > 0`. Every index the loop reads, including the unchecked one, is proved in bounds, and the loop terminates on `line_idx`. What the result is comes from the `Layout` lemmas: `WalkInArea` for order, bounds and area, `StackUnique` for uniqueness. |
| `Tui.MsgArea.DrawAll` | src/tui/msg_area/mod.rs:43-66 | The same loop with the guard `line_idx >= 0` yields exactly `Layout.Walk` with line 0 included. The same bounds and termination proofs apply. |
| `Tui.MsgArea.ScrollUp` | src/tui/msg_area/mod.rs:73-77 | The new scroll is `Scrolling.ScrollUp` of the old one. Nothing else changes. The invariant is kept. |
| `Tui.MsgArea.ScrollDown` | src/tui/msg_area/mod.rs:79-83 | The new scroll is `Scrolling.ScrollDown` of the old one. Nothing else changes. The invariant is kept. |
| `Tui.MsgArea.PageUp` | src/tui/msg_area/mod.rs:85-87 | The new scroll is `Scrolling.PageUp` of the old one. Nothing else changes. The invariant holds afterwards from any old scroll. |
| `Tui.MsgArea.PageDown` | src/tui/msg_area/mod.rs:89-91 | The new scroll is `Scrolling.PageDown` of the old one. Nothing else changes. The invariant is kept. |
| `Tui.MsgArea.AddText` | src/tui/msg_area/mod.rs:98-100 | Only the line buffer changes. It becomes `Lines.AddText` of the old buffer, under the fragment model of `Line`. |
| `Tui.MsgArea.FlushLine` | src/tui/msg_area/mod.rs:102-104 | The old buffer becomes the new last line, and `lines` grows by exactly one with earlier lines unchanged. The buffer becomes the empty line. Scroll and size are unchanged, and the invariant is kept. |
| `Scrolling.ScrollUp` | src/tui/msg_area/mod.rs:73-77 | The offset grows by exactly 1 if and only if it is below `len-1`, and otherwise stays. It never grows past `len-1`. With no lines a non-negative offset stays put. The invariant is kept. |
| `Scrolling.ScrollDown` | src/tui/msg_area/mod.rs:79-83 | The offset shrinks by exactly 1 if and only if it is positive, and otherwise stays. A non-negative offset stays in `0..old`. |
| `Scrolling.PageUp` | src/tui/msg_area/mod.rs:85-87 | The result is always in `0..max(0,len-1)`. It is `scroll+10` when that fits, and `max(0,len-1)` when it does not. Under the invariant it lies in `scroll..scroll+10`, so it never decreases. |
| `Scrolling.PageDown` | src/tui/msg_area/mod.rs:89-91 | The result is never negative. It is `scroll-10` when `scroll >= 10` and 0 otherwise, and it never exceeds a non-negative old offset. |
| `Scrolling.PageDownInRange` | src/tui/msg_area/mod.rs:89-91 | Page down keeps the scroll invariant. |
| `Scrolling.ScrollDownUndoesScrollUp` | src/tui/msg_area/mod.rs:73-83 | Below the first line, one line up then one line down returns to the same offset. |
| `Scrolling.ScrollUpUndoesScrollDown` | src/tui/msg_area/mod.rs:73-83 | From a valid positive offset, one line down then one line up returns to the same offset. |
| `Scrolling.ScrollUpTimesClamps` | src/tui/msg_area/mod.rs:73-77 | From a valid offset, `n` line-ups give `min(scroll+n, max(0,len-1))`. |
| `Scrolling.ScrollDownTimesClamps` | src/tui/msg_area/mod.rs:79-83 | From a non-negative offset, `n` line-downs give `max(0, scroll-n)`. |
| `Scrolling.PageUpIsTenScrollUps` | src/tui/msg_area/mod.rs:73-87 | Under the invariant, a page up equals ten successive line-ups. |
| `Scrolling.PageDownIsTenScrollDowns` | src/tui/msg_area/mod.rs:79-91 | From a non-negative offset, a page down equals ten successive line-downs. |
| `Scrolling.PageDownUndoesPageUp` | src/tui/msg_area/mod.rs:85-91 | A page up that did not reach the first line is undone by a page down. |
| `Layout.WalkIsCompleteStack` | src/tui/msg_area/mod.rs:47-64 | The draw walk yields a stack: indices `start, start-1, ...`, none below the guard's bound, each line's top at `bottom+1` minus the heights of the lines drawn so far, none above `pos_y`. The stack cannot be extended by the next line. |
| `Layout.StackCons` | src/tui/msg_area/mod.rs:52-64 | Drawing one fitting line under a stack of the lines before it gives a stack. This is one loop iteration. |
| `Layout.WalkStep` | src/tui/msg_area/mod.rs:49-64 | One loop iteration: when line `idx` is not below the bound and fits with its top at `lineRow`, the plan so far plus the rest of the walk equals the plan extended by that line plus the walk from `idx-1` with free row `lineRow-1`. |
| `Layout.StackUnique` | src/tui/msg_area/mod.rs:43-66 | Two complete stacks with the same start and bottom row are equal, so the walk is the only correct drawing. |
| `Layout.NotShorter` | src/tui/msg_area/mod.rs:48-58 | A complete stack is at least as long as any stack with the same start: the walk stops only when the next line cannot be drawn. |
| `Layout.LongerMeansIncomplete` | src/tui/msg_area/mod.rs:48-58 | If a longer stack exists, a shorter one could still have been extended. |
| `Layout.StackInArea` | src/tui/msg_area/mod.rs:44-64 | Every stacked line lies within rows `pos_y .. bottom`. The first one ends at `bottom`. Each other one ends on the row just above the previous line's top, and lies wholly above every earlier line. |
| `Layout.WalkInArea` | src/tui/msg_area/mod.rs:43-66 | What `draw` renders has indices `start-k`, strictly decreasing from `start = len-1-scroll`. None is below the guard's bound, so as written (bound 1) every index is in `1..len-1` and line 0 is never drawn. Every line lies within rows `pos_y .. pos_y+height-1` and wholly above every line drawn before it, so no two overlap. |
| `Layout.WalkDrawsAllThatFit` | src/tui/msg_area/mod.rs:48-64 | When the lines from the guard's bound up to `start` fit together in the rows left, the walk draws every one of them. |
| `Layout.AsWrittenOmitsFirstLine` | src/tui/msg_area/mod.rs:47-48 | With the guard `line_idx > 0`, an area tall enough for all lines at scroll 0 still draws only `len-1` of them, never line 0. |
| `Layout.FullyScrolledBackShowsNothing` | src/tui/msg_area/mod.rs:44-48 | At the largest offset that `scroll_up` and `page_up` reach, `max(0,len-1)`, the walk as written draws nothing for every non-empty list. With line 0 included, the first line is drawn ending on the area's last row whenever it fits. |
| `Layout.OnlyLineHidden` | src/tui/msg_area/mod.rs:47-48 | With one line that fits, the walk as written draws nothing. With line 0 included, it draws that line at the bottom. |
| `Layout.CorrectedDrawsEveryLine` | src/tui/msg_area/mod.rs:19-22 | With the guard `line_idx >= 0` and all lines fitting at scroll 0, every line is drawn in order, and the newest line ends on the area's last row, as the documentation of `scroll` says. |

## Left out

- `src/slack_conn.rs` (the connection broker) is not part of this model. It consists of thread spawning and joins, mio and futures channels, a tokio reactor driving a websocket reader and writer, and HTTP calls into the Slack API client, whose behaviour is not visible. Its only decision logic is the five-way forwarding match on requests.
- Terminal rendering: `line.draw(rustbox, pos_x, line_row, width)` is replaced by recording a placement `(line index, top row)`. `pos_x` and `width` are passed to every line unchanged and are not recorded, so `Draw` takes no `pos_x`.
- The internals of `Line` (module `line`): a line is modelled as the sequence of `(text, style)` fragments appended to it. Wrapping is not modelled. `rendered_height` is the `Measure` parameter of the draw operations, and is assumed to be at least 1. The style type is abstract.
- Machine integers: `i32` overflow in `scroll + 10`, in `pos_y + height - 1`, in the row arithmetic and in `lines.len() as i32` is not modelled. All integers are unbounded.
- Tui.MsgArea.Draw: requires `scroll >= 0`, which the source does not check at the call. The source's unchecked index is in bounds for every `scroll >= 0`, and out of bounds for a negative offset whenever the area has a row and `len-1-scroll > 0`, which is every negative offset except -1 with no lines. Every operation keeps `scroll >= 0`. `Tui.MsgArea.DrawAll` has the same requirement.

## Findings

| source | as written | input that shows it | evidently intended | confidence | as-written member | corrected member |
|---|---|---|---|---|---|---|
| src/tui/msg_area/mod.rs:48 | The loop guard is `line_idx > 0`, so `lines[0]` is never drawn. | One flushed line, scroll 0, and an area at least as tall as the line: nothing is drawn. With any number of lines, scrolling back to the largest offset `len-1` also draws nothing (`Layout.FullyScrolledBackShowsNothing`). The documentation at lines 19-21 says that at scroll 0 `lines[len-1]` is drawn at the bottom. | `line_idx >= 0`, so the first line is drawn too. | medium; not executed | `Layout.OnlyLineHidden` | `Layout.CorrectedDrawsEveryLine` |

`Tui.MsgArea.Draw` models the loop as written. `Tui.MsgArea.DrawAll` is the
corrected loop. Both are proved equal to `Layout.Walk`, which draws
line 0 only when the lowest index is 0, so the in-bounds, ordering and
in-area lemmas about `Walk` cover both loops.

/** Scroll-offset arithmetic of the message area. The offset counts lines
    back from the last line: by design, offset 0 shows the newest line at
    the bottom of the area, and the largest meaningful offset, with `len`
    lines, is max(0, len - 1). */
module Scrolling {

  /** The number of lines one page-up or page-down moves by. */
  const Page: int := 10

  /** max(0, len - 1): the largest offset that still names a line. */
  function MaxScroll(len: nat): nat
  {
    if len == 0 then 0 else len - 1
  }

  /** The message area's invariant on its scroll offset. */
  predicate InRange(scroll: int, len: nat)
  {
    0 <= scroll <= MaxScroll(len)
  }

  /** `scroll_up` with `len` lines: one line further back, unless the offset
      already reaches the first line. */
  function ScrollUp(scroll: int, len: nat): (r: int)
    ensures r == scroll || r == scroll + 1
    ensures r == scroll + 1 <==> scroll < len - 1
    ensures r > scroll ==> r <= len - 1
    ensures len == 0 && 0 <= scroll ==> r == scroll
    ensures InRange(scroll, len) ==> InRange(r, len)
  {
    if scroll < len - 1 then scroll + 1 else scroll
  }

  /** `scroll_down`: one line nearer the newest line, never below zero. */
  function ScrollDown(scroll: int): (r: int)
    ensures r == scroll || r == scroll - 1
    ensures r == scroll - 1 <==> scroll > 0
    ensures 0 <= scroll ==> 0 <= r <= scroll
  {
    if scroll > 0 then scroll - 1 else scroll
  }

  /** `page_up` with `len` lines: max(0, min(len - 1, scroll + 10)). */
  function PageUp(scroll: int, len: nat): (r: int)
    ensures InRange(r, len)
    ensures 0 <= scroll + Page <= MaxScroll(len) ==> r == scroll + Page
    ensures MaxScroll(len) < scroll + Page ==> r == MaxScroll(len)
    ensures scroll + Page < 0 ==> r == 0
    ensures InRange(scroll, len) ==> scroll <= r <= scroll + Page
  {
    var capped := if len - 1 < scroll + Page then len - 1 else scroll + Page;
    if capped < 0 then 0 else capped
  }

  /** `page_down`: max(0, scroll - 10). */
  function PageDown(scroll: int): (r: int)
    ensures 0 <= r
    ensures Page <= scroll ==> r == scroll - Page
    ensures scroll < Page ==> r == 0
    ensures 0 <= scroll ==> r <= scroll
  {
    if scroll - Page < 0 then 0 else scroll - Page
  }

  /** `page_down` keeps the offset invariant. */
  lemma PageDownInRange(scroll: int, len: nat)
    requires InRange(scroll, len)
    ensures InRange(PageDown(scroll), len)
  {
  }

  /** One line up then one line down returns to the starting offset when
      the first line was not yet reached. */
  lemma ScrollDownUndoesScrollUp(scroll: int, len: nat)
    requires 0 <= scroll < len - 1
    ensures ScrollDown(ScrollUp(scroll, len)) == scroll
  {
  }

  /** One line down then one line up returns to the starting offset when
      the newest line was not yet at the bottom. */
  lemma ScrollUpUndoesScrollDown(scroll: int, len: nat)
    requires InRange(scroll, len) && 0 < scroll
    ensures ScrollUp(ScrollDown(scroll), len) == scroll
  {
  }

  /** The offset after `n` successive `scroll_up` calls. */
  function ScrollUpTimes(scroll: int, len: nat, n: nat): int
    decreases n
  {
    if n == 0 then scroll else ScrollUpTimes(ScrollUp(scroll, len), len, n - 1)
  }

  /** The offset after `n` successive `scroll_down` calls. */
  function ScrollDownTimes(scroll: int, n: nat): int
    decreases n
  {
    if n == 0 then scroll else ScrollDownTimes(ScrollDown(scroll), n - 1)
  }

  /** From a valid offset, `n` line-ups stop exactly at the first line. */
  lemma {:induction false} ScrollUpTimesClamps(scroll: int, len: nat, n: nat)
    requires InRange(scroll, len)
    ensures ScrollUpTimes(scroll, len, n)
            == if scroll + n <= MaxScroll(len) then scroll + n else MaxScroll(len)
    decreases n
  {
    if n > 0 {
      ScrollUpTimesClamps(ScrollUp(scroll, len), len, n - 1);
    }
  }

  /** From a non-negative offset, `n` line-downs stop exactly at zero. */
  lemma {:induction false} ScrollDownTimesClamps(scroll: int, n: nat)
    requires 0 <= scroll
    ensures ScrollDownTimes(scroll, n) == if n <= scroll then scroll - n else 0
    decreases n
  {
    if n > 0 {
      ScrollDownTimesClamps(ScrollDown(scroll), n - 1);
    }
  }

  /** Under the invariant, a page up is ten line-ups. */
  lemma PageUpIsTenScrollUps(scroll: int, len: nat)
    requires InRange(scroll, len)
    ensures PageUp(scroll, len) == ScrollUpTimes(scroll, len, Page)
  {
    ScrollUpTimesClamps(scroll, len, Page);
  }

  /** From a non-negative offset, a page down is ten line-downs. */
  lemma PageDownIsTenScrollDowns(scroll: int)
    requires 0 <= scroll
    ensures PageDown(scroll) == ScrollDownTimes(scroll, Page)
  {
    ScrollDownTimesClamps(scroll, Page);
  }

  /** A page up that did not hit the first line is undone by a page down. */
  lemma PageDownUndoesPageUp(scroll: int, len: nat)
    requires InRange(scroll, len) && scroll + Page <= MaxScroll(len)
    ensures PageDown(PageUp(scroll, len)) == scroll
  {
  }
}

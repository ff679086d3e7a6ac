/** The scrolled action view (View in pkg/ui/controller.go): the action
    view and the health dashboard are rendered as lines, and only a window
    of them, chosen by the scroll offset and the terminal's height, is
    shown, with markers when there is more above or below. */
module ScrollView {

  /** A window into the rendered lines: `lines[start:end]` in Go's slice
      notation. */
  datatype Window = Window(start: int, end: int)

  /** Go can take the slice: the bounds are in order and inside the lines
      (otherwise the slice expression panics). */
  predicate Sliceable(w: Window, n: nat) {
    0 <= w.start <= w.end <= n
  }

  /** The visible height as the source computes it: the terminal's height
      less six lines of chrome, or 30 while the height is unknown. */
  function VisibleHeightAsWritten(windowHeight: int): int {
    if windowHeight > 0 then windowHeight - 6 else 30
  }

  /** The window as the source computes it for `n` lines: the offset is
      raised to 0, lowered to the last start that still fills the view,
      and the end is the start plus the visible height, lowered to `n`. */
  function WindowAsWritten(n: nat, offset: int, windowHeight: int): Window {
    var visible := VisibleHeightAsWritten(windowHeight);
    var start := if offset < 0 then 0 else offset;
    var maxStart := if n - visible < 0 then 0 else n - visible;
    var start' := if start > maxStart then maxStart else start;
    var end := if start' + visible > n then n else start' + visible;
    Window(start', end)
  }

  /** On a terminal one to five lines high the visible height is negative,
      the end falls before the start, and the slice panics, whatever the
      lines and the offset. */
  lemma TinyTerminalPanics(n: nat, offset: int, windowHeight: int)
    requires 1 <= windowHeight <= 5
    ensures WindowAsWritten(n, offset, windowHeight).end < WindowAsWritten(n, offset, windowHeight).start
    ensures !Sliceable(WindowAsWritten(n, offset, windowHeight), n)
  {
  }

  /** Ten lines in a three-line terminal, at the top: `lines[0:-3]`. */
  lemma TinyTerminalExample()
    ensures WindowAsWritten(10, 0, 3) == Window(0, -3)
  {
  }

  /** The visible height, never negative: a terminal too small for the
      chrome shows no lines instead of failing. */
  function VisibleHeight(windowHeight: int): (h: nat)
    ensures windowHeight > 6 ==> h == windowHeight - 6
    ensures windowHeight <= 0 ==> h == 30
  {
    if windowHeight > 0 then (if windowHeight - 6 < 0 then 0 else windowHeight - 6) else 30
  }

  /** The last start that still fills the view. */
  function MaxStart(n: nat, windowHeight: int): nat {
    if n - VisibleHeight(windowHeight) < 0 then 0 else n - VisibleHeight(windowHeight)
  }

  /** The window with the corrected visible height: the offset clamped to
      `0 .. MaxStart`, then as many lines as fit. */
  function ScrollWindow(n: nat, offset: int, windowHeight: int): (w: Window)
    ensures Sliceable(w, n)
    ensures w.start <= MaxStart(n, windowHeight)
    ensures w.end - w.start <= VisibleHeight(windowHeight)
  {
    var start := if offset < 0 then 0 else if offset > MaxStart(n, windowHeight) then MaxStart(n, windowHeight) else offset;
    Window(start, if start + VisibleHeight(windowHeight) > n then n else start + VisibleHeight(windowHeight))
  }

  /** Where the terminal is tall enough, or its height unknown, the source
      already computes the corrected window. */
  lemma WindowAsWrittenAgrees(n: nat, offset: int, windowHeight: int)
    requires windowHeight <= 0 || windowHeight >= 6
    ensures WindowAsWritten(n, offset, windowHeight) == ScrollWindow(n, offset, windowHeight)
    ensures Sliceable(WindowAsWritten(n, offset, windowHeight), n)
  {
  }

  /** The window's start is the offset when it is in range, the top below
      it and the last full page above it; the view is full whenever the
      lines below the start fill it. */
  lemma ScrollWindowShape(n: nat, offset: int, windowHeight: int)
    ensures 0 <= offset <= MaxStart(n, windowHeight) ==> ScrollWindow(n, offset, windowHeight).start == offset
    ensures offset <= 0 ==> ScrollWindow(n, offset, windowHeight).start == 0
    ensures offset >= MaxStart(n, windowHeight) ==> ScrollWindow(n, offset, windowHeight).start == MaxStart(n, windowHeight)
    ensures n >= VisibleHeight(windowHeight) ==>
      ScrollWindow(n, offset, windowHeight).end - ScrollWindow(n, offset, windowHeight).start == VisibleHeight(windowHeight)
    ensures n < VisibleHeight(windowHeight) ==> ScrollWindow(n, offset, windowHeight) == Window(0, n)
  {
  }

  /** Scrolling further down never moves the window up. */
  lemma ScrollWindowMonotone(n: nat, lower: int, higher: int, windowHeight: int)
    requires lower <= higher
    ensures ScrollWindow(n, lower, windowHeight).start <= ScrollWindow(n, higher, windowHeight).start
    ensures ScrollWindow(n, lower, windowHeight).end <= ScrollWindow(n, higher, windowHeight).end
  {
  }

  /** The offset the `end` key sets shows the last line of any content of
      up to 9999 lines. */
  lemma EndKeyShowsLastLine(n: nat, windowHeight: int)
    requires n <= 9999
    ensures ScrollWindow(n, 9999, windowHeight).end == n
  {
  }

  /** What the action view shows: the window's lines and whether there is
      more above and below it. */
  datatype Page = Page(lines: seq<string>, moreAbove: bool, moreBelow: bool)

  /** The scrolling part of View for the action view, with the corrected
      visible height. */
  method ShowPage(lines: seq<string>, scrollOffset: int, windowHeight: int) returns (page: Page)
    ensures var w := ScrollWindow(|lines|, scrollOffset, windowHeight);
      page == Page(lines[w.start..w.end], w.start > 0, w.end < |lines|)
    ensures |page.lines| <= VisibleHeight(windowHeight)
    ensures page.moreAbove <==> scrollOffset > 0 && MaxStart(|lines|, windowHeight) > 0
  {
    var visibleHeight := 30;
    if windowHeight > 0 {
      visibleHeight := windowHeight - 6;
      if visibleHeight < 0 {
        visibleHeight := 0;
      }
    }
    var startLine := scrollOffset;
    if startLine < 0 {
      startLine := 0;
    }
    var maxStartLine := |lines| - visibleHeight;
    if maxStartLine < 0 {
      maxStartLine := 0;
    }
    if startLine > maxStartLine {
      startLine := maxStartLine;
    }
    var endLine := startLine + visibleHeight;
    if endLine > |lines| {
      endLine := |lines|;
    }
    page := Page(lines[startLine..endLine], startLine > 0, endLine < |lines|);
  }
}

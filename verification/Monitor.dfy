/**
 The 80 by 25 text screen of monitor.c: video memory and cursor, in place, against a
 terminal whose paper never ends.
 */
module Monitor {
  type Cell = c: nat | c < 0x1_0000
  /** A C char, signed as on the machine. */
  type Char = c: int | -128 <= c < 128

  const COLUMNS: nat := 80
  const ROWS: nat := 25
  const BACKSPACE: Char := 8
  const TAB: Char := 9
  const NEWLINE: Char := 10
  const RETURN: Char := 13
  const SPACE: Char := 32
  const ATTRIBUTE: nat := 0x0700
  const BLANK: Cell := 0x0F20

  /** Cursor and everything written so far, by position row * 80 + column from the last clear on. */
  datatype Paper = Paper(x: nat, y: nat, written: map<nat, Cell>)

  const CLEAN: Paper := Paper(0, 0, map[])

  /** A position never written shows what clearing left in the first 25 rows and what scrolling puts below. */
  function Look(written: map<nat, Cell>, position: nat): Cell {
    if position in written then written[position]
    else if position < COLUMNS * ROWS then 0
    else BLANK
  }

  function Position(p: Paper): nat { p.y * COLUMNS + p.x }

  /** The first row on the screen: the cursor is always within the 25 rows shown. */
  function Top(p: Paper): nat { if p.y < ROWS then 0 else p.y - ROWS + 1 }

  function Moved(p: Paper, c: Char): Paper {
    if c == BACKSPACE then p.(x := if p.x > 0 then p.x - 1 else 0)
    else if c == TAB then p.(x := p.x + 8 - p.x % 8)
    else if c == RETURN then p.(x := 0)
    else if c == NEWLINE then p.(x := 0, y := p.y + 1)
    else if c >= SPACE then p.(x := p.x + 1, written := p.written[Position(p) := c + ATTRIBUTE])
    else p
  }

  function Put(p: Paper, c: Char): (r: Paper)
    requires p.x < COLUMNS
    ensures r.x < COLUMNS && p.y <= r.y <= p.y + 1
  {
    var m := Moved(p, c);
    if m.x >= COLUMNS then m.(x := 0, y := m.y + 1) else m
  }

  function PutAll(p: Paper, s: seq<Char>): (r: Paper)
    requires p.x < COLUMNS
    ensures r.x < COLUMNS && p.y <= r.y
    decreases |s|
  {
    if s == [] then p else PutAll(Put(p, s[0]), s[1..])
  }

  lemma {:induction false} PutAllAppend(p: Paper, a: seq<Char>, b: seq<Char>)
    requires p.x < COLUMNS
    ensures PutAll(p, a + b) == PutAll(PutAll(p, a), b)
    decreases |a|
  {
    if a == [] { assert a + b == b; } else {
      assert (a + b)[1..] == a[1..] + b;
      PutAllAppend(Put(p, a[0]), a[1..], b);
    }
  }

  /** Control characters write nothing: a tab goes to the next multiple of eight, a newline to the next row. */
  lemma ControlMoves(p: Paper, c: Char)
    requires p.x < 80 && c < 32
    ensures var r := Put(p, c);
      && r.written == p.written
      && (c == 9 ==> r.x % 8 == 0 && 80 * p.y + p.x < 80 * r.y + r.x <= 80 * p.y + p.x + 8)
      && (c == 10 ==> r.x == 0 && r.y == p.y + 1)
      && (c == 13 ==> r.x == 0 && r.y == p.y)
      && (c == 8 ==> r.y == p.y && r.x == if p.x == 0 then 0 else p.x - 1)
      && (c !in {8, 9, 10, 13} ==> r == p)
  {}

  /** Plain text fills the paper cell by cell, wrapping at the right edge, and touches nothing else. */
  lemma {:induction false} PlainText(p: Paper, s: seq<Char>, position: nat)
    requires p.x < 80 && forall i :: 0 <= i < |s| ==> s[i] >= 32
    ensures var r, from := PutAll(p, s), 80 * p.y + p.x;
      && 80 * r.y + r.x == from + |s|
      && Look(r.written, position) == if from <= position < from + |s| then s[position - from] + 0x0700 else Look(p.written, position)
    decreases |s|
  {
    if s != [] { PlainText(Put(p, s[0]), s[1..], position); }
  }

  /** What scrolled off stays: rows above the screen are never written again. */
  lemma {:induction false} RowsAboveStay(p: Paper, s: seq<Char>, position: nat)
    requires p.x < COLUMNS && position < COLUMNS * Top(p)
    ensures Look(PutAll(p, s).written, position) == Look(p.written, position) && Top(p) <= Top(PutAll(p, s))
    decreases |s|
  {
    if s != [] { RowsAboveStay(Put(p, s[0]), s[1..], position); }
  }

  class Screen {
    const video: array<Cell>
    var cursorX: nat
    var cursorY: nat
    ghost var paper: Paper

    /** The screen shows the last 25 rows of the paper. */
    ghost predicate Valid()
      reads this, video
    {
      && video.Length == COLUMNS * ROWS
      && cursorX < COLUMNS && cursorY < ROWS
      && cursorX == paper.x && cursorY + Top(paper) == paper.y
      && Shown(video[..], paper.written, Top(paper)) && NothingBelow(paper)
    }

    constructor (buffer: array<Cell>)
      requires buffer.Length == COLUMNS * ROWS
      modifies buffer
      ensures Valid() && video == buffer && paper == CLEAN
    {
      video := buffer;
      new;
      Clear();
    }

    method Clear()
      requires video.Length == COLUMNS * ROWS
      modifies this, video
      ensures Valid() && paper == CLEAN && cursorX == 0 && cursorY == 0 && video[..] == seq<Cell>(2000, _ => 0)
    {
      for i := 0 to COLUMNS * ROWS
        invariant forall k :: 0 <= k < i ==> video[k] == 0
      {
        video[i] := 0;
      }
      cursorX, cursorY := 0, 0;
      paper := CLEAN;
    }

    /** The overlapping copy moves every row up by one; the last row becomes blank. */
    method Scroll()
      requires video.Length == COLUMNS * ROWS && cursorY <= ROWS
      modifies this`cursorY, video
      ensures old(cursorY) < 25 ==> cursorY == old(cursorY) && video[..] == old(video[..])
      ensures old(cursorY) == 25 ==> cursorY == 24 && video[..] == old(video[80..]) + seq<Cell>(80, _ => 0x0F20)
    {
      if cursorY >= ROWS {
        for i := 0 to COLUMNS * (ROWS - 1)
          invariant forall k :: 0 <= k < i ==> video[k] == old(video[k + COLUMNS])
          invariant forall k :: i <= k < COLUMNS * ROWS ==> video[k] == old(video[k])
        {
          video[i] := video[COLUMNS + i];
        }
        for i := COLUMNS * (ROWS - 1) to COLUMNS * ROWS
          invariant forall k :: 0 <= k < COLUMNS * (ROWS - 1) ==> video[k] == old(video[k + COLUMNS])
          invariant forall k :: COLUMNS * (ROWS - 1) <= k < i ==> video[k] == BLANK
        {
          video[i] := BLANK;
        }
        cursorY := ROWS - 1;
      }
    }

    method PutChar(c: Char)
      requires Valid()
      modifies this, video
      ensures Valid() && paper == Put(old(paper), c)
      ensures c >= 32 && !(old(cursorX) == 79 && old(cursorY) == 24) ==>
        video[..] == old(video[..])[80 * old(cursorY) + old(cursorX) := c + 0x0700]
      ensures c == 10 && old(cursorY) == 24 ==> video[..] == old(video[80..]) + seq<Cell>(80, _ => 0x0F20)
      ensures c < 32 && !(c == 10 && old(cursorY) == 24) && !(c == 9 && old(cursorX) >= 72 && old(cursorY) == 24) ==>
        video[..] == old(video[..])
    {
      ghost var p, top := paper, Top(paper);
      hide Shown, Look;
      if c == BACKSPACE && cursorX > 0 {
        cursorX := cursorX - 1;
      } else if c == TAB {
        cursorX := cursorX + 8 - (cursorX + 8) % 8;
      } else if c == RETURN {
        cursorX := 0;
      } else if c == NEWLINE {
        cursorX := 0;
        cursorY := cursorY + 1;
      } else if c >= SPACE {
        StoreShown(video[..], p.written, top, cursorX + COLUMNS * cursorY, c + ATTRIBUTE);
        video[cursorX + COLUMNS * cursorY] := c + ATTRIBUTE;
        cursorX := cursorX + 1;
      }
      if cursorX >= COLUMNS {
        cursorX := 0;
        cursorY := cursorY + 1;
      }
      paper := Put(p, c);
      if Top(paper) > top { ScrollShown(video[..], paper.written, top); }
      Scroll();
    }

    /** _monitor_write() */
    method Write(s: seq<Char>)
      requires Valid()
      modifies this, video
      ensures Valid() && paper == PutAll(old(paper), s)
    {
      for i := 0 to |s|
        invariant Valid() && paper == PutAll(old(paper), s[..i])
      {
        assert s[..i + 1] == s[..i] + [s[i]];
        PutAllAppend(old(paper), s[..i], [s[i]]);
        PutChar(s[i]);
      }
      assert s[..|s|] == s;
    }
  }

  ghost predicate Shown(v: seq<Cell>, written: map<nat, Cell>, top: nat) {
    |v| == COLUMNS * ROWS && forall i :: 0 <= i < |v| ==> v[i] == Look(written, COLUMNS * top + i)
  }

  /** Rows below the cursor were never written. */
  ghost predicate NothingBelow(p: Paper) {
    forall i :: i in p.written ==> i < COLUMNS * (p.y + 1)
  }

  lemma StoreShown(v: seq<Cell>, written: map<nat, Cell>, top: nat, at: nat, c: Cell)
    requires Shown(v, written, top) && at < COLUMNS * ROWS
    ensures |v| == COLUMNS * ROWS && Shown(v[at := c], written[COLUMNS * top + at := c], top)
  {}

  /** One more row: the paper's next row is still blank, as the row scrolled in. */
  lemma ScrollShown(v: seq<Cell>, written: map<nat, Cell>, top: nat)
    requires Shown(v, written, top) && forall i :: i in written ==> i < COLUMNS * (top + ROWS)
    ensures |v| == COLUMNS * ROWS && Shown(v[COLUMNS..] + seq<Cell>(COLUMNS, _ => BLANK), written, top + 1)
  {}
}

/**
 * The terminal protocol the monitor writes: the ECMA-48 control functions
 * CUP (section 8.3.21), CHA (8.3.9), ED (8.3.39), EL (8.3.41) and SGR (8.3.117),
 * and the DEC VT100 private sequences DECSTBM (`CSI t;b r`, scroll region),
 * DECSC (`ESC 7`, save cursor) and DECRC (`ESC 8`, restore cursor).
 *
 * Output is kept as a sequence of tokens; `Render` gives the exact characters.
 */
module Ansi {
  import opened Text

  const ESC: char := 27 as char

  datatype Token =
    | ResetScrollRegion                          // CSI r
    | SetScrollRegion(top: int, bottom: int)     // CSI top;bottom r
    | CursorPosition(row: int, column: int)      // CUP: CSI row;column H
    | CursorColumn(column: int)                  // CHA: CSI column G
    | EraseDisplay(mode: int)                    // ED: CSI mode J
    | EraseLine                                  // EL: CSI K
    | Sgr(parameters: seq<int>)                  // SGR: CSI p1;p2;... m
    | SaveCursor                                 // DECSC: ESC 7
    | RestoreCursor                              // DECRC: ESC 8
    | Text(text: string)                         // plain characters
    | Newline                                    // the platform line separator

  /** SGR parameters joined by ';'. */
  function JoinParameters(ps: seq<int>): string
    decreases |ps|
  {
    if ps == [] then ""
    else if |ps| == 1 then IntToString(ps[0])
    else IntToString(ps[0]) + ";" + JoinParameters(ps[1..])
  }

  function Csi(body: string): string {
    [ESC, '['] + body
  }

  /** The characters of one token. */
  function RenderToken(t: Token): (s: string)
    ensures t.Text? ==> s == t.text
    ensures !t.Text? && !t.Newline? ==> |s| >= 2 && s[0] == ESC
  {
    match t
    case ResetScrollRegion => Csi("r")
    case SetScrollRegion(top, bottom) => Csi(IntToString(top) + ";" + IntToString(bottom) + "r")
    case CursorPosition(row, column) => Csi(IntToString(row) + ";" + IntToString(column) + "H")
    case CursorColumn(column) => Csi(IntToString(column) + "G")
    case EraseDisplay(mode) => Csi(IntToString(mode) + "J")
    case EraseLine => Csi("K")
    case Sgr(ps) => Csi(JoinParameters(ps) + "m")
    case SaveCursor => [ESC, '7']
    case RestoreCursor => [ESC, '8']
    case Text(s) => s
    case Newline => "\n"
  }

  /** The characters of a token sequence, in order. */
  function Render(ts: seq<Token>): string
    decreases |ts|
  {
    if ts == [] then "" else RenderToken(ts[0]) + Render(ts[1..])
  }

  lemma RenderUnfold(ts: seq<Token>)
    requires ts != []
    ensures Render(ts) == RenderToken(ts[0]) + Render(ts[1..])
  {
  }

  /** Rendering is compositional: writing two pieces is writing their concatenation. */
  lemma {:induction false} RenderAppend(a: seq<Token>, b: seq<Token>)
    ensures Render(a + b) == Render(a) + Render(b)
    decreases |a|
  {
    if a == [] {
      assert a + b == b;
    } else {
      assert (a + b)[1..] == a[1..] + b;
      RenderAppend(a[1..], b);
    }
  }

  // ---------------------------------------------------------------------------
  // A terminal abstraction that tracks only what the screen layout relies on:
  // the cursor, the saved cursor and the scroll region.
  // ---------------------------------------------------------------------------

  /** A cursor position, or Unknown once text has been written (wrapping is not modelled). */
  datatype Position = Known(row: int, column: int) | Unknown

  datatype Region = FullScreen | Rows(top: int, bottom: int)

  datatype Terminal = Terminal(cursor: Position, saved: Position, region: Region)

  /** The effect of one token on cursor, saved cursor and scroll region. */
  function Step(st: Terminal, t: Token): Terminal {
    match t
    // DECSTBM homes the cursor
    case ResetScrollRegion => st.(region := FullScreen, cursor := Known(1, 1))
    case SetScrollRegion(top, bottom) => st.(region := Rows(top, bottom), cursor := Known(1, 1))
    case CursorPosition(row, column) => st.(cursor := Known(row, column))
    case CursorColumn(column) =>
      st.(cursor := if st.cursor.Known? then Known(st.cursor.row, column) else Unknown)
    case SaveCursor => st.(saved := st.cursor)
    case RestoreCursor => st.(cursor := st.saved)
    case Text(_) => st.(cursor := Unknown)
    case Newline => st.(cursor := Unknown)
    // ED, EL and SGR do not move the cursor
    case EraseDisplay(_) => st
    case EraseLine => st
    case Sgr(_) => st
  }

  /** The terminal after receiving a token sequence. */
  function Exec(st: Terminal, ts: seq<Token>): Terminal
    decreases |ts|
  {
    if ts == [] then st else Exec(Step(st, ts[0]), ts[1..])
  }

  lemma ExecUnfold(st: Terminal, ts: seq<Token>)
    requires ts != []
    ensures Exec(st, ts) == Exec(Step(st, ts[0]), ts[1..])
  {
  }

  lemma {:induction false} ExecAppend(st: Terminal, a: seq<Token>, b: seq<Token>)
    ensures Exec(st, a + b) == Exec(Exec(st, a), b)
    decreases |a|
  {
    if a == [] {
      assert a + b == b;
    } else {
      assert (a + b)[1..] == a[1..] + b;
      ExecAppend(Step(st, a[0]), a[1..], b);
    }
  }
}

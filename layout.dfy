/**
 * The fixed screen of the monitor (MonitorPlugin): the table header, the
 * header separator, the empty body line, the initial screen with its scroll
 * region, the envelope of every body write, the clock write and the teardown.
 */
module Layout {
  import opened Wrappers
  import opened Text
  import opened Ansi

  const DefaultColumns: int := 80
  const DefaultLines: int := 20

  /** `\033[1;32m`: bold green, header and footer. */
  const HeaderFooterColor: Token := Sgr([1, 32])
  /** `\033[0;32m`: green, table body. */
  const BodyColor: Token := Sgr([0, 32])
  /** `\033[0;31m`: red, error lines. */
  const ErrorColor: Token := Sgr([0, 31])
  /** `\033[0m`: reset all attributes. */
  const ResetColor: Token := Sgr([0])

  const TimePattern: string := "yyyy-MM-dd HH:mm:ss"

  // The three fixed lines of the table, written piecewise one column at a time.
  const Header: string :=
    "  #        " + "| Date / Time         " + "| Source    " + "| Target    " + "| DPT      " + "| Value"
  const SeparatorPrefix: string :=
    "-----------+" + "---------------------+" + "-----------+" + "-----------+" + "----------+"
  const EmptyLine: string :=
    "           |" + "                     |" + "           |" + "           |" + "          |"
  const FootLine: string := "Press CTRL+C to quit"

  /** Where the columns of the table meet: '|' in the header and body, '+' in the separator. */
  predicate IsColumnBoundary(p: int) {
    p == 11 || p == 33 || p == 45 || p == 57 || p == 68
  }

  /** The header, the empty body line and the separator line up column by column. */
  lemma ColumnsLineUp(p: int)
    requires IsColumnBoundary(p)
    ensures Header[p] == '|' && EmptyLine[p] == '|' && SeparatorPrefix[p] == '+'
    ensures |SeparatorPrefix| == |EmptyLine| == 69
  {
  }

  /**
   * `getHeaderSeparator`: the fixed prefix and `columns - 70` dashes. `String.repeat`
   * throws for a negative count, so there is no separator below 70 columns.
   */
  function HeaderSeparator(columns: int): (r: Option<string>)
    ensures r.Some? <==> columns >= 70
    ensures r.Some? ==> |r.value| == columns - 1
    ensures r.Some? ==> r.value[..69] == SeparatorPrefix
    ensures r.Some? ==> forall i :: 68 < i < |r.value| ==> r.value[i] == '-'
  {
    if columns < 70 then None else Some(SeparatorPrefix + Repeat('-', columns - 70))
  }

  /** The number of empty body rows: the loop `for (i = 0; i < lines - 4 - 3; i++)`. */
  function BodyRowCount(lines: int): (n: nat)
    ensures lines >= 7 ==> n == lines - 7
    ensures lines < 7 ==> n == 0
  {
    if lines - 4 - 3 > 0 then lines - 4 - 3 else 0
  }

  function Headline(columns: int, lines: int, routing: bool, natEnabled: bool): string {
    "KNX MONITOR (" + IntToString(columns) + " x " + IntToString(lines)
      + ", Routing: " + BoolText(routing) + ", NAT: " + BoolText(natEnabled) + ")"
  }

  const BodyRow: seq<Token> := [BodyColor, Text(EmptyLine), Newline]

  /** `n` empty body rows. */
  function BodyRows(n: nat): seq<Token>
    decreases n
  {
    if n == 0 then [] else BodyRows(n - 1) + BodyRow
  }

  /** Everything the initial screen has before the body rows (ends with the header separator). */
  function ScreenHead(separator: string, headline: string): seq<Token> {
    [ResetScrollRegion, CursorPosition(0, 0), EraseDisplay(2),
     Text(headline), Newline,
     Newline,
     HeaderFooterColor, Text(Header), Newline, Text(separator), Newline]
  }

  /** Everything the initial screen has after the body rows (starts with the footer separator). */
  function ScreenTail(separator: string, lines: int): seq<Token> {
    [HeaderFooterColor, Text(separator), Newline,
     ResetColor, Text(FootLine), Newline,
     SetScrollRegion(5, lines - 3),
     CursorPosition(5, 0),
     SaveCursor]
  }

  /** The screen for a given separator and headline. */
  function Screen(separator: string, headline: string, lines: int): seq<Token> {
    ScreenHead(separator, headline) + BodyRows(BodyRowCount(lines)) + ScreenTail(separator, lines)
  }

  /** The tokens `printInitialScreen` prints, for a terminal of at least 70 columns. */
  function InitialScreen(columns: int, lines: int, routing: bool, natEnabled: bool): seq<Token>
    requires columns >= 70
  {
    Screen(HeaderSeparator(columns).value, Headline(columns, lines, routing, natEnabled), lines)
  }

  lemma {:induction false} BodyRowsLength(n: nat)
    ensures |BodyRows(n)| == 3 * n
  {
    if n > 0 { BodyRowsLength(n - 1); }
  }

  /** Row `k` of the body is the body colour, the empty line and a line break. */
  lemma {:induction false} BodyRowsAt(n: nat, k: nat)
    requires k < n
    ensures |BodyRows(n)| == 3 * n
    ensures BodyRows(n)[3 * k .. 3 * k + 3] == BodyRow
  {
    BodyRowsLength(n);
    if k < n - 1 {
      BodyRowsAt(n - 1, k);
      assert BodyRows(n)[3 * k .. 3 * k + 3] == BodyRows(n - 1)[3 * k .. 3 * k + 3];
    } else {
      BodyRowsLength(n - 1);
      assert BodyRows(n)[3 * k .. 3 * k + 3] == BodyRows(n)[|BodyRows(n - 1)|..];
    }
  }

  /** Every token occurs in `n` body rows exactly `n` times as often as in one row. */
  lemma {:induction false} BodyRowsCount(n: nat, t: Token)
    ensures multiset(BodyRows(n))[t] == n * multiset(BodyRow)[t]
  {
    if n > 0 {
      assert BodyRows(n) == BodyRows(n - 1) + BodyRow;
      BodyRowsCount(n - 1, t);
      var c := multiset(BodyRow)[t];
      assert multiset(BodyRows(n)) == multiset(BodyRows(n - 1)) + multiset(BodyRow);
      assert (n - 1) * c + c == n * c;
    }
  }

  lemma ScreenHeadShape(separator: string, headline: string)
    ensures var h := ScreenHead(separator, headline);
      && |h| == 11
      && h[..3] == [ResetScrollRegion, CursorPosition(0, 0), EraseDisplay(2)]
      && h[9] == Text(separator) && h[10] == Newline
  {
  }

  lemma ScreenTailShape(separator: string, lines: int)
    ensures var t := ScreenTail(separator, lines);
      && |t| == 9
      && t[..3] == [HeaderFooterColor, Text(separator), Newline]
      && t[6..] == [SetScrollRegion(5, lines - 3), CursorPosition(5, 0), SaveCursor]
  {
  }

  lemma ScreenLayout(separator: string, headline: string, lines: int)
    ensures var s := Screen(separator, headline, lines);
      var n := BodyRowCount(lines);
      && |s| == 20 + 3 * n
      && s[..3] == [ResetScrollRegion, CursorPosition(0, 0), EraseDisplay(2)]
      && s[9] == Text(separator) && s[10] == Newline
      && (forall k :: 0 <= k < n ==> s[11 + 3 * k .. 14 + 3 * k] == BodyRow)
      && s[11 + 3 * n .. 14 + 3 * n] == [HeaderFooterColor, Text(separator), Newline]
      && s[|s| - 3..] == [SetScrollRegion(5, lines - 3), CursorPosition(5, 0), SaveCursor]
  {
    var s := Screen(separator, headline, lines);
    var n := BodyRowCount(lines);
    var head := ScreenHead(separator, headline);
    var body := BodyRows(n);
    var tail := ScreenTail(separator, lines);
    ScreenHeadShape(separator, headline);
    ScreenTailShape(separator, lines);
    BodyRowsLength(n);
    assert s[..3] == head[..3];
    assert s[9] == head[9] && s[10] == head[10];
    forall k | 0 <= k < n
      ensures s[11 + 3 * k .. 14 + 3 * k] == BodyRow
    {
      BodyRowsAt(n, k);
      assert s[11 + 3 * k .. 14 + 3 * k] == body[3 * k .. 3 * k + 3];
    }
    assert s[11 + 3 * n .. 14 + 3 * n] == tail[..3];
    assert s[|s| - 3..] == tail[6..];
  }

  /**
   * The initial screen: reset scroll region, home and clear first; then exactly
   * `max(0, lines - 7)` empty body rows between the header separator and the footer
   * separator; then the scroll region 5..lines-3, the cursor to row 5 and the cursor
   * saved, with nothing after the save.
   */
  lemma InitialScreenLayout(columns: int, lines: int, routing: bool, natEnabled: bool)
    requires columns >= 70
    ensures var s := InitialScreen(columns, lines, routing, natEnabled);
      var n := BodyRowCount(lines);
      var separator := HeaderSeparator(columns).value;
      && |s| == 20 + 3 * n
      && s[..3] == [ResetScrollRegion, CursorPosition(0, 0), EraseDisplay(2)]
      && s[9] == Text(separator) && s[10] == Newline
      && (forall k :: 0 <= k < n ==> s[11 + 3 * k .. 14 + 3 * k] == BodyRow)
      && s[11 + 3 * n .. 14 + 3 * n] == [HeaderFooterColor, Text(separator), Newline]
      && s[|s| - 3..] == [SetScrollRegion(5, lines - 3), CursorPosition(5, 0), SaveCursor]
  {
    ScreenLayout(HeaderSeparator(columns).value, Headline(columns, lines, routing, natEnabled), lines);
  }

  /** How often a token occurs in the screen: in the head, once per body row, in the tail. */
  lemma ScreenMultiset(separator: string, headline: string, lines: int, t: Token)
    ensures multiset(Screen(separator, headline, lines))[t]
         == multiset(ScreenHead(separator, headline))[t]
          + BodyRowCount(lines) * multiset(BodyRow)[t]
          + multiset(ScreenTail(separator, lines))[t]
  {
    BodyRowsCount(BodyRowCount(lines), t);
  }

  /** The lines of the screen are told apart by their first character or their length. */
  lemma LinesDiffer(columns: int, lines: int, routing: bool, natEnabled: bool)
    requires columns >= 70
    ensures var separator := HeaderSeparator(columns).value;
      var headline := Headline(columns, lines, routing, natEnabled);
      && EmptyLine != separator && EmptyLine != Header && EmptyLine != FootLine && EmptyLine != headline
      && separator != Header && separator != FootLine && separator != headline
  {
    var separator := HeaderSeparator(columns).value;
    var headline := Headline(columns, lines, routing, natEnabled);
    assert separator[0] == '-' && EmptyLine[0] == ' ' && Header[0] == ' ' && FootLine[0] == 'P';
    assert headline[0] == 'K';
    assert |Header| != |EmptyLine| && |FootLine| != |EmptyLine|;
  }

  /** A text that is none of the head's lines does not occur in the head. */
  lemma HeadWithoutText(a: string, separator: string, headline: string)
    requires a != separator && a != Header && a != headline
    ensures multiset(ScreenHead(separator, headline))[Text(a)] == 0
  {
    assert Text(a) !in ScreenHead(separator, headline);
  }

  /** A text that is none of the tail's lines does not occur in the tail. */
  lemma TailWithoutText(a: string, separator: string, lines: int)
    requires a != separator && a != FootLine
    ensures multiset(ScreenTail(separator, lines))[Text(a)] == 0
  {
  }

  lemma BodyRowEmptyLine()
    ensures multiset(BodyRow)[Text(EmptyLine)] == 1
  {
  }

  lemma ScreenEmptyLines(separator: string, headline: string, lines: int)
    requires EmptyLine != separator && EmptyLine != Header && EmptyLine != FootLine && EmptyLine != headline
    ensures multiset(Screen(separator, headline, lines))[Text(EmptyLine)] == BodyRowCount(lines)
  {
    ScreenMultiset(separator, headline, lines, Text(EmptyLine));
    HeadWithoutText(EmptyLine, separator, headline);
    TailWithoutText(EmptyLine, separator, lines);
    BodyRowEmptyLine();
  }

  /** The empty body line occurs once per body row and nowhere else. */
  lemma InitialScreenEmptyLines(columns: int, lines: int, routing: bool, natEnabled: bool)
    requires columns >= 70
    ensures multiset(InitialScreen(columns, lines, routing, natEnabled))[Text(EmptyLine)]
         == BodyRowCount(lines)
  {
    LinesDiffer(columns, lines, routing, natEnabled);
    ScreenEmptyLines(HeaderSeparator(columns).value, Headline(columns, lines, routing, natEnabled), lines);
  }

  lemma BodyColorPlaces(separator: string, headline: string, lines: int)
    ensures multiset(ScreenHead(separator, headline))[BodyColor] == 0
    ensures multiset(ScreenTail(separator, lines))[BodyColor] == 0
    ensures multiset(BodyRow)[BodyColor] == 1
  {
    ColorsDiffer();
    assert BodyColor !in ScreenHead(separator, headline);
    assert BodyColor !in ScreenTail(separator, lines);
    assert BodyRow == [BodyColor] + [Text(EmptyLine), Newline];
    assert BodyColor !in [Text(EmptyLine), Newline];
  }

  /** The colour codes are distinct tokens. */
  lemma ColorsDiffer()
    ensures HeaderFooterColor != BodyColor && ResetColor != BodyColor && ErrorColor != BodyColor
  {
    assert HeaderFooterColor.parameters[0] != BodyColor.parameters[0];
    assert |ResetColor.parameters| != |BodyColor.parameters|;
    assert ErrorColor.parameters[1] != BodyColor.parameters[1];
  }

  lemma ScreenBodyColor(separator: string, headline: string, lines: int)
    ensures multiset(Screen(separator, headline, lines))[BodyColor] == BodyRowCount(lines)
  {
    ScreenMultiset(separator, headline, lines, BodyColor);
    BodyColorPlaces(separator, headline, lines);
  }

  /** The body colour opens every body row and is used nowhere else. */
  lemma InitialScreenBodyColor(columns: int, lines: int, routing: bool, natEnabled: bool)
    requires columns >= 70
    ensures multiset(InitialScreen(columns, lines, routing, natEnabled))[BodyColor]
         == BodyRowCount(lines)
  {
    ScreenBodyColor(HeaderSeparator(columns).value, Headline(columns, lines, routing, natEnabled), lines);
  }

  lemma HeadSeparator(separator: string, headline: string)
    requires separator != Header && separator != headline
    ensures multiset(ScreenHead(separator, headline))[Text(separator)] == 1
  {
  }

  lemma TailSeparator(separator: string, lines: int)
    requires separator != FootLine
    ensures multiset(ScreenTail(separator, lines))[Text(separator)] == 1
  {
  }

  lemma BodyRowWithoutText(a: string)
    requires a != EmptyLine
    ensures multiset(BodyRow)[Text(a)] == 0
  {
  }

  lemma ScreenSeparators(separator: string, headline: string, lines: int)
    requires separator != EmptyLine && separator != Header && separator != FootLine && separator != headline
    ensures multiset(Screen(separator, headline, lines))[Text(separator)] == 2
  {
    ScreenMultiset(separator, headline, lines, Text(separator));
    HeadSeparator(separator, headline);
    TailSeparator(separator, lines);
    BodyRowWithoutText(separator);
  }

  /** The separator line is printed twice: under the header and above the footer. */
  lemma InitialScreenSeparators(columns: int, lines: int, routing: bool, natEnabled: bool)
    requires columns >= 70
    ensures multiset(InitialScreen(columns, lines, routing, natEnabled))[Text(HeaderSeparator(columns).value)] == 2
  {
    LinesDiffer(columns, lines, routing, natEnabled);
    ScreenSeparators(HeaderSeparator(columns).value, Headline(columns, lines, routing, natEnabled), lines);
  }

  lemma HeadSaves(separator: string, headline: string)
    ensures multiset(ScreenHead(separator, headline))[SaveCursor] == 0
  {
    assert SaveCursor !in ScreenHead(separator, headline);
  }

  lemma TailSaves(separator: string, lines: int)
    ensures multiset(ScreenTail(separator, lines))[SaveCursor] == 1
  {
  }

  lemma BodyRowSaves()
    ensures multiset(BodyRow)[SaveCursor] == 0
  {
  }

  lemma ScreenSaves(separator: string, headline: string, lines: int)
    ensures multiset(Screen(separator, headline, lines))[SaveCursor] == 1
  {
    ScreenMultiset(separator, headline, lines, SaveCursor);
    HeadSaves(separator, headline);
    TailSaves(separator, lines);
    BodyRowSaves();
  }

  /** The cursor is saved exactly once, as the last thing on the screen. */
  lemma InitialScreenSaves(columns: int, lines: int, routing: bool, natEnabled: bool)
    requires columns >= 70
    ensures var s := InitialScreen(columns, lines, routing, natEnabled);
      multiset(s)[SaveCursor] == 1 && s[|s| - 1] == SaveCursor
  {
    ScreenSaves(HeaderSeparator(columns).value, Headline(columns, lines, routing, natEnabled), lines);
    InitialScreenLayout(columns, lines, routing, natEnabled);
  }

  /** With the fallback dimensions 80 x 20 the body has 13 rows and the separator 79 characters. */
  lemma DefaultScreen(routing: bool, natEnabled: bool)
    ensures BodyRowCount(DefaultLines) == 13
    ensures |HeaderSeparator(DefaultColumns).value| == 79
    ensures multiset(InitialScreen(DefaultColumns, DefaultLines, routing, natEnabled))[Text(EmptyLine)] == 13
  {
    InitialScreenEmptyLines(DefaultColumns, DefaultLines, routing, natEnabled);
  }

  /**
   * Whatever state the terminal was in, after the initial screen the scroll region is
   * rows 5..lines-3 and both the cursor and the saved cursor are at row 5.
   */
  lemma InitialScreenTerminal(st: Terminal, columns: int, lines: int, routing: bool, natEnabled: bool)
    requires columns >= 70
    ensures Exec(st, InitialScreen(columns, lines, routing, natEnabled))
         == Terminal(Known(5, 0), Known(5, 0), Rows(5, lines - 3))
  {
    var separator := HeaderSeparator(columns).value;
    var headline := Headline(columns, lines, routing, natEnabled);
    var tail := ScreenTail(separator, lines);
    var last := [SetScrollRegion(5, lines - 3), CursorPosition(5, 0), SaveCursor];
    assert tail == tail[..6] + last;
    var pre := ScreenHead(separator, headline) + BodyRows(BodyRowCount(lines)) + tail[..6];
    assert Screen(separator, headline, lines) == pre + last;
    ExecAppend(st, pre, last);
    ScreenEndTerminal(Exec(st, pre), lines);
  }

  /** The last three tokens of the screen fix the whole terminal state, from any state. */
  lemma ScreenEndTerminal(st: Terminal, lines: int)
    ensures Exec(st, [SetScrollRegion(5, lines - 3), CursorPosition(5, 0), SaveCursor])
         == Terminal(Known(5, 0), Known(5, 0), Rows(5, lines - 3))
  {
    var t := [SetScrollRegion(5, lines - 3), CursorPosition(5, 0), SaveCursor];
    ExecUnfold(st, t);
    ExecUnfold(Step(st, t[0]), t[1..]);
    ExecUnfold(Step(Step(st, t[0]), t[1]), t[2..]);
    assert t[2..][1..] == [];
  }


  lemma RenderHome()
    ensures RenderToken(CursorPosition(0, 0)) == [ESC] + "[0;0H"
  {
    assert IntToString(0) == "0";
  }

  lemma RenderClear()
    ensures RenderToken(EraseDisplay(2)) == [ESC] + "[2J"
  {
    assert IntToString(2) == "2";
  }

  lemma RenderScreenStart()
    ensures Render([ResetScrollRegion, CursorPosition(0, 0), EraseDisplay(2)])
         == [ESC] + "[r" + [ESC] + "[0;0H" + [ESC] + "[2J"
  {
    var ts := [ResetScrollRegion, CursorPosition(0, 0), EraseDisplay(2)];
    RenderUnfold(ts);
    RenderUnfold(ts[1..]);
    RenderUnfold(ts[2..]);
    RenderHome();
    RenderClear();
  }

  lemma RenderScrollRegion(bottom: int)
    ensures RenderToken(SetScrollRegion(5, bottom)) == [ESC] + "[5;" + IntToString(bottom) + "r"
  {
    assert IntToString(5) == "5";
  }

  lemma RenderFirstBodyRow()
    ensures RenderToken(CursorPosition(5, 0)) == [ESC] + "[5;0H"
  {
    assert IntToString(5) == "5";
    assert IntToString(0) == "0";
  }

  lemma RenderScreenEnd(lines: int)
    ensures Render([SetScrollRegion(5, lines - 3), CursorPosition(5, 0), SaveCursor])
         == [ESC] + "[5;" + IntToString(lines - 3) + "r" + [ESC] + "[5;0H" + [ESC] + "7"
  {
    var region := [ESC] + "[5;" + IntToString(lines - 3) + "r";
    var row := [ESC] + "[5;0H";
    var save := [ESC] + "7";
    var ts := [SetScrollRegion(5, lines - 3), CursorPosition(5, 0), SaveCursor];
    assert Render([SaveCursor]) == save by {
      RenderUnfold([SaveCursor]);
      assert [SaveCursor][1..] == [];
    }
    assert Render(ts[1..]) == row + save by {
      assert ts[1..] == [CursorPosition(5, 0), SaveCursor];
      assert ts[1..][1..] == [SaveCursor];
      RenderUnfold(ts[1..]);
      RenderFirstBodyRow();
    }
    assert Render(ts) == region + (row + save) by {
      RenderUnfold(ts);
      RenderScrollRegion(lines - 3);
    }
  }

  lemma ScreenBytes(separator: string, headline: string, lines: int)
    ensures var r := Render(Screen(separator, headline, lines));
      var start := [ESC] + "[r" + [ESC] + "[0;0H" + [ESC] + "[2J";
      var end := [ESC] + "[5;" + IntToString(lines - 3) + "r" + [ESC] + "[5;0H" + [ESC] + "7";
      && |r| >= |start| + |end|
      && r[..|start|] == start
      && r[|r| - |end|..] == end
  {
    var s := Screen(separator, headline, lines);
    ScreenLayout(separator, headline, lines);
    var k := |s| - 3;
    var first, middle, last := s[..3], s[3..k], s[k..];
    assert s == first + middle + last;
    RenderAppend(first + middle, last);
    RenderAppend(first, middle);
    RenderScreenStart();
    RenderScreenEnd(lines);
    var start := [ESC] + "[r" + [ESC] + "[0;0H" + [ESC] + "[2J";
    var end := [ESC] + "[5;" + IntToString(lines - 3) + "r" + [ESC] + "[5;0H" + [ESC] + "7";
    assert Render(s) == start + Render(middle) + end;
  }

  /** The characters of the initial screen begin with `ESC[r ESC[0;0H ESC[2J` and end with
      `ESC[5;<lines-3>r ESC[5;0H ESC 7`. */
  lemma InitialScreenBytes(columns: int, lines: int, routing: bool, natEnabled: bool)
    requires columns >= 70
    ensures var r := Render(InitialScreen(columns, lines, routing, natEnabled));
      var start := [ESC] + "[r" + [ESC] + "[0;0H" + [ESC] + "[2J";
      var end := [ESC] + "[5;" + IntToString(lines - 3) + "r" + [ESC] + "[5;0H" + [ESC] + "7";
      && |r| >= |start| + |end|
      && r[..|start|] == start
      && r[|r| - |end|..] == end
  {
    ScreenBytes(HeaderSeparator(columns).value, Headline(columns, lines, routing, natEnabled), lines);
  }

  // ---------------------------------------------------------------------------
  // Body writes (printToTerminal) and the clock write (TimeRunnable)
  // ---------------------------------------------------------------------------

  /**
   * One `printToTerminal`: restore the cursor, clear to end of line, the escape code,
   * a line break unless it is the first write, the text, reset colour, save the cursor.
   */
  function Envelope(escapeCode: Token, first: bool, text: string): seq<Token> {
    if first then [RestoreCursor, EraseLine, escapeCode, Text(text), ResetColor, SaveCursor]
    else [RestoreCursor, EraseLine, escapeCode, Newline, Text(text), ResetColor, SaveCursor]
  }

  /** A body write starts writing at the cursor the previous body write saved. */
  lemma EnvelopeStartsAtSaved(st: Terminal, escapeCode: Token, first: bool, text: string)
    requires escapeCode.Sgr?
    ensures Exec(st, Envelope(escapeCode, first, text)[..3]).cursor == st.saved
  {
    var p := Envelope(escapeCode, first, text)[..3];
    assert p == [RestoreCursor, EraseLine, escapeCode];
    ExecUnfold(st, p);
    ExecUnfold(Step(st, p[0]), p[1..]);
    ExecUnfold(Step(Step(st, p[0]), p[1]), p[2..]);
  }

  /** Only a write on a non-empty table carries a line break. */
  lemma EnvelopeNewlines(escapeCode: Token, first: bool, text: string)
    requires escapeCode.Sgr?
    ensures multiset(Envelope(escapeCode, first, text))[Newline] == (if first then 0 else 1)
  {
  }

  /** Every body write saves the cursor once, as its last token. */
  lemma EnvelopeSaves(escapeCode: Token, first: bool, text: string)
    requires escapeCode.Sgr?
    ensures var e := Envelope(escapeCode, first, text);
      multiset(e)[SaveCursor] == 1 && e[|e| - 1] == SaveCursor
  {
  }

  /** The output of consecutive body writes, given whether the table is still empty. */
  function BodyWrites(writes: seq<(Token, string)>, empty: bool): seq<Token>
    decreases |writes|
  {
    if writes == [] then []
    else Envelope(writes[0].0, empty, writes[0].1) + BodyWrites(writes[1..], false)
  }

  /**
   * Over any series of body writes on a fresh table, only the first has no line break:
   * `|writes| - 1` line breaks in all, one save per write.
   */
  lemma {:induction false} BodyWritesNewlines(writes: seq<(Token, string)>, empty: bool)
    requires forall i :: 0 <= i < |writes| ==> writes[i].0.Sgr?
    ensures |writes| > 0 ==>
      multiset(BodyWrites(writes, empty))[Newline] == |writes| - (if empty then 1 else 0)
    ensures multiset(BodyWrites(writes, empty))[SaveCursor] == |writes|
    decreases |writes|
  {
    if writes != [] {
      var rest := writes[1..];
      assert forall i :: 0 <= i < |rest| ==> rest[i].0.Sgr? by {
        forall i | 0 <= i < |rest| ensures rest[i].0.Sgr? { assert rest[i] == writes[i + 1]; }
      }
      BodyWritesNewlines(rest, false);
      EnvelopeNewlines(writes[0].0, empty, writes[0].1);
      EnvelopeSaves(writes[0].0, empty, writes[0].1);
      var e := Envelope(writes[0].0, empty, writes[0].1);
      assert BodyWrites(writes, empty) == e + BodyWrites(rest, false);
    }
  }

  /** One TimeRunnable iteration: the timestamp at row 1, in its last 19 columns. */
  function ClockWrite(columns: int, now: string): seq<Token> {
    [RestoreCursor, CursorPosition(1, 70), EraseLine, CursorColumn(columns - |TimePattern|),
     Text(now), RestoreCursor]
  }

  /**
   * The clock write never disturbs the body: it begins and ends with restoring the
   * cursor, never saves, and leaves the terminal at the saved position with the same
   * saved cursor and scroll region it found.
   */
  lemma ClockWriteTerminal(st: Terminal, columns: int, now: string)
    ensures var c := ClockWrite(columns, now);
      && c[0] == RestoreCursor && c[|c| - 1] == RestoreCursor
      && SaveCursor !in c
      && Exec(st, c) == st.(cursor := st.saved)
  {
    var c := ClockWrite(columns, now);
    var s1 := Step(st, c[0]);
    var s2 := Step(s1, c[1]);
    var s3 := Step(s2, c[2]);
    var s4 := Step(s3, c[3]);
    var s5 := Step(s4, c[4]);
    ExecUnfold(st, c);
    ExecUnfold(s1, c[1..]);
    ExecUnfold(s2, c[2..]);
    ExecUnfold(s3, c[3..]);
    ExecUnfold(s4, c[4..]);
    ExecUnfold(s5, c[5..]);
  }

  /** `onShutdown`: reset scroll region, home, clear, printed with `println`. */
  function Teardown(): seq<Token> {
    [ResetScrollRegion, CursorPosition(0, 0), EraseDisplay(2), Newline]
  }

  /** After the teardown the scroll region is the full screen again, from any state. */
  lemma TeardownTerminal(st: Terminal)
    ensures Exec(st, Teardown()).region == FullScreen
    ensures Render(Teardown()) == [ESC] + "[r" + [ESC] + "[0;0H" + [ESC] + "[2J" + "\n"
  {
    var t := Teardown();
    ExecUnfold(st, t);
    ExecUnfold(Step(st, t[0]), t[1..]);
    ExecUnfold(Step(Step(st, t[0]), t[1]), t[2..]);
    ExecUnfold(Step(Step(Step(st, t[0]), t[1]), t[2]), t[3..]);
    assert t == [ResetScrollRegion, CursorPosition(0, 0), EraseDisplay(2)] + [Newline];
    RenderAppend([ResetScrollRegion, CursorPosition(0, 0), EraseDisplay(2)], [Newline]);
    RenderScreenStart();
    RenderUnfold([Newline]);
  }
}

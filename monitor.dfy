/**
 * The TTY monitor plugin: terminal dimensions, the initial screen, body writes
 * guarded by the "table still empty" flag, the row counter, the clock write,
 * shutdown, and one tick of the fake-data generator.
 */
module Monitor {
  import opened Wrappers
  import opened Text
  import opened JavaInt
  import opened Ansi
  import opened Knx
  import opened Layout
  import opened RowFormat

  // ---------------------------------------------------------------------------
  // Terminal dimensions
  // ---------------------------------------------------------------------------

  /** `getTerminalColumns`: the `tput cols` answer, or 80 when the query printed nothing. */
  function TerminalColumns(query: Option<int>): (columns: int)
    ensures query.None? ==> columns == DefaultColumns
    ensures query.Some? ==> columns == query.value
  {
    query.GetOr(DefaultColumns)
  }

  /** `getTerminalLines`: the `tput lines` answer, or 20 when the query printed nothing. */
  function TerminalLines(query: Option<int>): (lines: int)
    ensures query.None? ==> lines == DefaultLines
    ensures query.Some? ==> lines == query.value
  {
    query.GetOr(DefaultLines)
  }

  /**
   * When neither query answers, the terminal is 80 by 20: the screen can be drawn, has
   * 13 empty body rows and a 79-character separator.
   */
  lemma FallbackDimensions(routing: bool, natEnabled: bool)
    ensures TerminalColumns(None) == 80 && TerminalLines(None) == 20
    ensures HeaderSeparator(TerminalColumns(None)).Some?
    ensures |HeaderSeparator(TerminalColumns(None)).value| == 79
    ensures multiset(InitialScreen(TerminalColumns(None), TerminalLines(None), routing, natEnabled))[Text(EmptyLine)] == 13
  {
    DefaultScreen(routing, natEnabled);
  }

  // ---------------------------------------------------------------------------
  // The initial screen, built the way printInitialScreen builds it
  // ---------------------------------------------------------------------------

  /**
   * The string builder of `printInitialScreen`: None when `getHeaderSeparator` throws
   * (fewer than 70 columns), else exactly the initial screen.
   */
  method ComposeInitialScreen(columns: int, lines: int, routing: bool, natEnabled: bool)
    returns (screen: Option<seq<Token>>)
    ensures screen.Some? <==> columns >= 70
    ensures screen.Some? ==> screen.value == InitialScreen(columns, lines, routing, natEnabled)
  {
    var separator := HeaderSeparator(columns);
    if separator.None? {
      return None;
    }
    // reset, home, clear, headline, blank line, table header and separator
    var sb := ScreenHead(separator.value, Headline(columns, lines, routing, natEnabled));
    ghost var head := sb;
    var i := 0;
    while i < lines - 4 - 3
      invariant 0 <= i <= BodyRowCount(lines)
      invariant sb == head + BodyRows(i)
    {
      sb := sb + BodyRow;
      i := i + 1;
    }
    // footer separator, foot line, scroll region, first body row, save cursor
    sb := sb + ScreenTail(separator.value, lines);
    return Some(sb);
  }

  // ---------------------------------------------------------------------------
  // The plugin
  // ---------------------------------------------------------------------------

  /** The client configuration the plugin reads in `onInitialization`. */
  datatype ClientConfig = ClientConfig(
    routingEnabled: bool,
    natEnabled: bool,
    project: Option<Project>,
    generateFakeData: bool,
    generateFakeDataInterval: int)

  /** The runnables handed to the executor. */
  datatype Task = ClockTask | FakeDataTask

  /** An incoming KNX/IP body; `cemi` is present exactly for CEMI-aware bodies. */
  datatype Body = Body(cemi: Option<Cemi>)

  /** The row counter after `k` calls of `printLineInTable` on a fresh plugin. */
  function Counter(k: nat): (c: int)
    ensures IsInt32(c)
  {
    if k == 0 then 0 else Increment32(Counter(k - 1))
  }

  /**
   * Row indices start at 1 and go up by one per row, with no gap and no repeat, until
   * the Java `int` runs out.
   */
  lemma {:induction false} CounterValue(k: nat)
    requires k <= Int32Max
    ensures Counter(k) == k
  {
    if k > 0 {
      CounterValue(k - 1);
    }
  }

  /** Every row index before the wrap-around fits the ten characters of its `%10s` column. */
  lemma RowIndexFits(k: nat)
    requires 1 <= k <= Int32Max
    ensures 1 <= Counter(k) && |IntToString(Counter(k))| <= 10
  {
    CounterValue(k);
    assert Pow10(10) == 10000000000;
    NatToStringLength(k, 10);
  }

  /** The 2^31-th row is numbered with Java's smallest `int`. */
  lemma CounterWraps()
    ensures Counter(Int32Max + 1) == Int32Min
  {
    CounterValue(Int32Max);
  }

  class MonitorPlugin {
    const columns: int
    const lines: int
    /** The KNX library functions the plugin calls. */
    const lib: Library
    /** Everything written to the terminal so far. */
    var out: seq<Token>
    var emptyTable: bool
    var numberOfIncomingBodies: int
    var config: Option<ClientConfig>
    var project: Option<Project>
    var generateFakeData: bool
    var generateFakeDataInterval: int
    /** The runnables running on the executor. */
    var tasks: seq<Task>
    var shutdown: bool

    ghost predicate Valid()
      reads this
    {
      IsInt32(numberOfIncomingBodies)
    }

    /** The constructor asks the terminal for its size; each query may print nothing. */
    constructor(columnsQuery: Option<int>, linesQuery: Option<int>, lib: Library)
      ensures Valid()
      ensures columns == TerminalColumns(columnsQuery) && lines == TerminalLines(linesQuery)
      ensures this.lib == lib
      ensures out == [] && emptyTable && numberOfIncomingBodies == 0
      ensures config.None? && project.None? && !generateFakeData && generateFakeDataInterval == 0
      ensures tasks == [] && !shutdown
    {
      columns := TerminalColumns(columnsQuery);
      lines := TerminalLines(linesQuery);
      this.lib := lib;
      out := [];
      emptyTable := true;
      numberOfIncomingBodies := 0;
      config := None;
      project := None;
      generateFakeData := false;
      generateFakeDataInterval := 0;
      tasks := [];
      shutdown := false;
    }

    /** `onInitialization`: remember the client's configuration, project and fake-data settings. */
    method OnInitialization(c: ClientConfig)
      modifies this
      ensures config == Some(c) && project == c.project
      ensures generateFakeData == c.generateFakeData
      ensures generateFakeDataInterval == c.generateFakeDataInterval
      ensures out == old(out) && emptyTable == old(emptyTable)
      ensures numberOfIncomingBodies == old(numberOfIncomingBodies)
      ensures tasks == old(tasks) && shutdown == old(shutdown)
    {
      config := Some(c);
      project := c.project;
      generateFakeData := c.generateFakeData;
      generateFakeDataInterval := c.generateFakeDataInterval;
    }

    /**
     * `printInitialScreen`: prints the initial screen in one write, or nothing at all
     * when the separator cannot be built (`ok` is false: the exception escapes).
     */
    method PrintInitialScreen() returns (ok: bool)
      requires config.Some?
      modifies this
      ensures config == old(config)
      ensures ok <==> columns >= 70
      ensures ok ==> out == old(out) + InitialScreen(columns, lines, config.value.routingEnabled,
                                                     config.value.natEnabled)
      ensures !ok ==> out == old(out)
      ensures emptyTable == old(emptyTable) && numberOfIncomingBodies == old(numberOfIncomingBodies)
      ensures project == old(project) && tasks == old(tasks)
      ensures generateFakeData == old(generateFakeData) && shutdown == old(shutdown)
      ensures generateFakeDataInterval == old(generateFakeDataInterval)
    {
      var screen := ComposeInitialScreen(columns, lines, config.value.routingEnabled, config.value.natEnabled);
      ok := screen.Some?;
      if ok {
        out := out + screen.value;
      }
    }

    /**
     * `onStart`: draw the screen, then start the clock and, if enabled, the fake-data
     * generator; when drawing throws, nothing is started.
     */
    method OnStart() returns (ok: bool)
      requires config.Some?
      modifies this
      ensures config == old(config)
      ensures ok <==> columns >= 70
      ensures ok ==> out == old(out) + InitialScreen(columns, lines, config.value.routingEnabled,
                                                     config.value.natEnabled)
      ensures !ok ==> out == old(out) && tasks == old(tasks)
      ensures ok && !shutdown ==>
        tasks == old(tasks) + [ClockTask] + (if generateFakeData then [FakeDataTask] else [])
      ensures ok && shutdown ==> tasks == old(tasks)
      ensures emptyTable == old(emptyTable) && numberOfIncomingBodies == old(numberOfIncomingBodies)
      ensures project == old(project) && shutdown == old(shutdown)
      ensures generateFakeData == old(generateFakeData)
      ensures generateFakeDataInterval == old(generateFakeDataInterval)
    {
      ok := PrintInitialScreen();
      if ok && !shutdown {
        tasks := tasks + [ClockTask];
        if generateFakeData {
          tasks := tasks + [FakeDataTask];
        }
      }
    }

    /** `onShutdown`: stop every runnable, then reset the scroll region, home and clear. */
    method OnShutdown()
      modifies this
      ensures tasks == [] && shutdown
      ensures out == old(out) + Teardown()
      ensures emptyTable == old(emptyTable) && numberOfIncomingBodies == old(numberOfIncomingBodies)
      ensures config == old(config) && project == old(project)
      ensures generateFakeData == old(generateFakeData)
      ensures generateFakeDataInterval == old(generateFakeDataInterval)
    {
      tasks := [];
      shutdown := true;
      out := out + Teardown();
    }

    /**
     * `printToTerminal(str, escapeCode)`: one body write in the envelope; only the first
     * write on an empty table has no line break, and the table is never empty again.
     */
    method PrintToTerminal(str: string, escapeCode: Token)
      modifies this
      ensures out == old(out) + Envelope(escapeCode, old(emptyTable), str)
      ensures !emptyTable
      ensures numberOfIncomingBodies == old(numberOfIncomingBodies)
      ensures config == old(config) && project == old(project) && tasks == old(tasks)
      ensures generateFakeData == old(generateFakeData) && shutdown == old(shutdown)
      ensures generateFakeDataInterval == old(generateFakeDataInterval)
    {
      var first := emptyTable;
      emptyTable := false;
      out := out + Envelope(escapeCode, first, str);
    }

    /**
     * `printLineInTable`: the counter goes up first and numbers the row; the row is
     * written in the body colour unless decoding threw, in which case nothing is written.
     */
    method PrintLineInTable(cemi: Cemi, now: string)
      requires Valid()
      modifies this
      ensures Valid()
      ensures numberOfIncomingBodies == Increment32(old(numberOfIncomingBodies))
      ensures var row := FormatRow(lib, project, cemi, numberOfIncomingBodies, now);
        && (row.Some? ==> out == old(out) + Envelope(BodyColor, old(emptyTable), row.value)
                          && !emptyTable)
        && (row.None? ==> out == old(out) && emptyTable == old(emptyTable))
      ensures config == old(config) && project == old(project) && tasks == old(tasks)
      ensures generateFakeData == old(generateFakeData) && shutdown == old(shutdown)
      ensures generateFakeDataInterval == old(generateFakeDataInterval)
    {
      numberOfIncomingBodies := Increment32(numberOfIncomingBodies);
      var row := FormatRow(lib, project, cemi, numberOfIncomingBodies, now);
      if row.Some? {
        PrintToTerminal(row.value, BodyColor);
      }
    }

    /** `onIncomingBody`: only a body that carries a CEMI frame becomes a row. */
    method OnIncomingBody(body: Body, now: string)
      requires Valid()
      modifies this
      ensures Valid()
      ensures body.cemi.None? ==> out == old(out) && emptyTable == old(emptyTable)
                                  && numberOfIncomingBodies == old(numberOfIncomingBodies)
      ensures body.cemi.Some? ==> numberOfIncomingBodies == Increment32(old(numberOfIncomingBodies))
      ensures body.cemi.Some? ==>
        var row := FormatRow(lib, project, body.cemi.value, numberOfIncomingBodies, now);
        && (row.Some? ==> out == old(out) + Envelope(BodyColor, old(emptyTable), row.value)
                          && !emptyTable)
        && (row.None? ==> out == old(out) && emptyTable == old(emptyTable))
      ensures config == old(config) && project == old(project) && tasks == old(tasks)
      ensures generateFakeData == old(generateFakeData) && shutdown == old(shutdown)
      ensures generateFakeDataInterval == old(generateFakeDataInterval)
    {
      if body.cemi.Some? {
        PrintLineInTable(body.cemi.value, now);
      }
    }

    /** `onOutgoingBody` does nothing. */
    method OnOutgoingBody(body: Body)
      ensures unchanged(this)
    {
    }

    /** `onError`: the message (or "null") after "[ ERROR ] ", written in red. */
    method OnError(message: Option<string>)
      modifies this
      ensures out == old(out) + Envelope(ErrorColor, old(emptyTable), ErrorText(message))
      ensures !emptyTable
      ensures numberOfIncomingBodies == old(numberOfIncomingBodies)
      ensures config == old(config) && project == old(project) && tasks == old(tasks)
      ensures generateFakeData == old(generateFakeData) && shutdown == old(shutdown)
      ensures generateFakeDataInterval == old(generateFakeDataInterval)
    {
      PrintToTerminal(ErrorText(message), ErrorColor);
    }

    /** One TimeRunnable iteration with the formatted current time. */
    method ClockTick(now: string)
      modifies this
      ensures out == old(out) + ClockWrite(columns, now)
      ensures emptyTable == old(emptyTable) && numberOfIncomingBodies == old(numberOfIncomingBodies)
      ensures config == old(config) && project == old(project) && tasks == old(tasks)
      ensures generateFakeData == old(generateFakeData) && shutdown == old(shutdown)
      ensures generateFakeDataInterval == old(generateFakeDataInterval)
    {
      out := out + ClockWrite(columns, now);
    }
  }

  /** `String.format("[ ERROR ] %s", message)`: a null message prints as "null". */
  function ErrorText(message: Option<string>): (s: string)
    ensures |s| >= 10 && s[..10] == "[ ERROR ] "
    ensures message.Some? ==> s[10..] == message.value
    ensures message.None? ==> s[10..] == "null"
  {
    "[ ERROR ] " + message.GetOr("null")
  }

  // ---------------------------------------------------------------------------
  // The fake-data generator
  // ---------------------------------------------------------------------------

  /** The frame a fake-data tick builds for index `n`: 15.15.n to 31/7/n carrying n * 127. */
  function FakeCemi(lib: Library, n: int): Cemi {
    Cemi(IndividualAddress(15, 15, n), Group(GroupAddress(31, 7, n)), lib.encodeCount(n * 127))
  }

  /** The index as written: `getAndIncrement() % 256` with Java's remainder. */
  function TickIndexAsWritten(counter: int): (n: int)
    ensures counter >= 0 ==> 0 <= n < 256
    ensures counter < 0 ==> -256 < n <= 0
  {
    Rem(counter, 256)
  }

  /** The index as intended: the counter taken modulo 256, always a valid address byte. */
  function TickIndex(counter: int): (n: int)
    ensures 0 <= n < 256
    ensures (counter - n) % 256 == 0
  {
    counter % 256
  }

  /**
   * The generator's counter is a Java `int`: after 2^31 ticks it wraps to a negative
   * value and the remainder as written goes negative, so the frame after next has
   * source 15.15.-255 and destination 31/7/-255.
   */
  lemma TickIndexGoesNegative(lib: Library)
    ensures Increment32(Int32Max) == Int32Min
    ensures TickIndexAsWritten(Increment32(Int32Max)) == 0
    ensures TickIndexAsWritten(Increment32(Increment32(Int32Max))) == -255
    ensures FakeCemi(lib, TickIndexAsWritten(Increment32(Increment32(Int32Max)))).source.device == -255
  {
    assert Increment32(Int32Min) == Int32Min + 1;
  }

  /** Where the counter is not negative, the intended index is the one written. */
  lemma TickIndexAgrees(counter: int)
    requires counter >= 0
    ensures TickIndex(counter) == TickIndexAsWritten(counter)
  {
  }

  /**
   * The intended index cycles 0, 1, ..., 255, 0, ... through every tick, also across
   * the wrap-around of the counter, since 2^32 is a multiple of 256.
   */
  lemma TickIndexNext(counter: int)
    requires IsInt32(counter)
    ensures TickIndex(Increment32(counter)) == (TickIndex(counter) + 1) % 256
  {
    if counter == Int32Max {
      assert TickIndex(Int32Max) == 255;
      assert TickIndex(Int32Min) == 0;
    }
  }

  /** The fake value n * 127 always fits a DPT 8 signed 16-bit count. */
  lemma FakeValueFits(counter: int)
    ensures 0 <= TickIndex(counter) * 127 <= 32385 < 32768
  {
  }

  /**
   * Without a project a fake frame always becomes a row: destination in hex, no
   * datapoint type, the payload in hex.
   */
  lemma FakeRowWithoutProject(lib: Library, counter: int, index: int, now: string)
    ensures var cemi := FakeCemi(lib, TickIndex(counter));
      FormatRow(lib, None, cemi, index, now)
        == Some(Row(IntToString(index), now, lib.individualText(IndividualAddress(15, 15, TickIndex(counter))),
                    lib.hexText(lib.addressBytes(Group(GroupAddress(31, 7, TickIndex(counter))))),
                    NotAvailable, lib.hexText(lib.encodeCount(TickIndex(counter) * 127))))
  {
    var cemi := FakeCemi(lib, TickIndex(counter));
    FallbackRow(lib, None, cemi, index, now);
  }

  /** `FakeDataRunnable`: its own counter and the plugin whose table it feeds. */
  class FakeDataRunnable {
    const plugin: MonitorPlugin
    var dummyIncrement: int

    ghost predicate Valid()
      reads this
    {
      IsInt32(dummyIncrement)
    }

    constructor(plugin: MonitorPlugin)
      ensures Valid() && this.plugin == plugin && dummyIncrement == 0
    {
      this.plugin := plugin;
      dummyIncrement := 0;
    }

    /**
     * One iteration of `run`: take the counter (then bump it), build the fake frame for
     * its index and hand it to `printLineInTable`. The index is the intended `TickIndex`,
     * not the remainder as written (`TickIndexAsWritten`); the two agree until the
     * counter wraps (`TickIndexAgrees`).
     */
    method Tick(now: string)
      requires Valid() && plugin.Valid()
      modifies this, plugin
      ensures Valid() && plugin.Valid()
      ensures dummyIncrement == Increment32(old(dummyIncrement))
      ensures plugin.numberOfIncomingBodies == Increment32(old(plugin.numberOfIncomingBodies))
      ensures var row := FormatRow(plugin.lib, plugin.project, FakeCemi(plugin.lib, TickIndex(old(dummyIncrement))),
                                   plugin.numberOfIncomingBodies, now);
        && (row.Some? ==> plugin.out == old(plugin.out) + Envelope(BodyColor, old(plugin.emptyTable), row.value)
                          && !plugin.emptyTable)
        && (row.None? ==> plugin.out == old(plugin.out) && plugin.emptyTable == old(plugin.emptyTable))
      ensures plugin.config == old(plugin.config) && plugin.project == old(plugin.project)
      ensures plugin.tasks == old(plugin.tasks) && plugin.shutdown == old(plugin.shutdown)
      ensures plugin.generateFakeData == old(plugin.generateFakeData)
      ensures plugin.generateFakeDataInterval == old(plugin.generateFakeDataInterval)
    {
      var inc := TickIndex(dummyIncrement);
      dummyIncrement := Increment32(dummyIncrement);
      plugin.PrintLineInTable(FakeCemi(plugin.lib, inc), now);
    }
  }
}

# KNX TTY monitor, modelled in Dafny

The KNX TTY monitor is a demo plugin for a KNX Net/IP client. It draws a fixed table on a
VT100-style terminal: a headline, a table header, empty body rows inside a scroll
region, and a foot line. Each incoming CEMI frame becomes one row. The text is padded to
fixed widths, the destination is shown in the project's style or in hex, and the value is
decoded by its datapoint type or shown in hex. A clock in the top-right corner ticks once
a second. An optional generator feeds fake frames. A small helper class reads the
command line (comma-separated parameter names, the value after a name, the choice
between endpoint, routing and tunneling) and formats durations.

The model covers this in nine modules:

- `Wrappers`: the `Option` type used for values that may be absent.
- `Text`: decimal rendering, `String.repeat`, and the `%Ns` right-justified padding.
- `Ansi`: the terminal protocol.
  - It covers the ECMA-48 control functions CUP (section 8.3.21), CHA (8.3.9), ED (8.3.39), EL (8.3.41) and SGR (8.3.117).
  - It also covers the DEC VT100 scroll region `CSI t;b r`, and cursor save and restore (`ESC 7` and `ESC 8`).
  - All of these are tokens with their exact characters (`Render`), plus an abstract terminal (`Exec`). The terminal tracks the cursor, the saved cursor and the scroll region.
- `Layout`: the fixed strings, the header separator, the initial screen, the envelope of a body write, the clock write and the teardown.
- `Knx`: addresses, CEMI frames and datapoint types as values. The KNX library enters as a record of total functions.
- `RowFormat`: `printLineInTable`'s pipeline from a frame to a row, with all its fallbacks.
- `JavaInt`: Java's 32-bit wrap-around and its truncating `/` and `%`.
- `Monitor`: the plugin as a class. It has fields for the output written so far, the "table still empty" flag, the row counter, the configuration and the running tasks. It also has one tick of the fake-data runnable as a class with its own counter.
- `MainHelper`: Java's `split(",")`, `existsParameter`, `getParameterValue` (nested loops with early return), `parseConfigBuilder` with its two failure messages, `toHumanTimeFormat` and `isOverdue`.

## Model

| member | source | states |
|---|---|---|
| `Monitor.TerminalColumns` | src/main/java/li/pitschmann/knx/examples/tty/MonitorPlugin.java:102-105 | no answer from `tput cols` gives 80 columns, an answer gives its value |
| `Monitor.TerminalLines` | src/main/java/li/pitschmann/knx/examples/tty/MonitorPlugin.java:113-116 | no answer from `tput lines` gives 20 lines, an answer gives its value |
| `Monitor.FallbackDimensions` | src/main/java/li/pitschmann/knx/examples/tty/MonitorPlugin.java:53-54 | with neither answer the terminal is 80×20; the screen can be drawn, with a 79-character separator and exactly 13 empty body lines |
| `Layout.HeaderSeparator` | src/main/java/li/pitschmann/knx/examples/tty/MonitorPlugin.java:147-149 | there is a separator iff columns ≥ 70 (`repeat` rejects a negative count); it has length columns − 1, the fixed 69-character prefix, and dashes after it |
| `Layout.Headline` | src/main/java/li/pitschmann/knx/examples/tty/MonitorPlugin.java:230-234 | definition: "KNX MONITOR (columns x lines, Routing: …, NAT: …)" with Java's decimal and boolean texts |
| `Layout.InitialScreen` | src/main/java/li/pitschmann/knx/examples/tty/MonitorPlugin.java:217-284 | definition: the whole token sequence `printInitialScreen` builds, for columns ≥ 70 |
| `Layout.ColumnsLineUp` | src/main/java/li/pitschmann/knx/examples/tty/MonitorPlugin.java:143-153 | the header, the empty line and the separator prefix have their column boundaries (a bar, or a plus in the separator) at the same five positions |
| `Layout.BodyRowCount` | src/main/java/li/pitschmann/knx/examples/tty/MonitorPlugin.java:252 | the body loop runs lines − 7 times when that is positive, else never |
| `Layout.BodyRowsCount` | src/main/java/li/pitschmann/knx/examples/tty/MonitorPlugin.java:252-256 | n body rows hold every token exactly n times as often as one row does |
| `Layout.BodyRowsAt` | src/main/java/li/pitschmann/knx/examples/tty/MonitorPlugin.java:252-256 | the k-th group of three tokens of the body is body colour, empty line, line break |
| `Layout.InitialScreenLayout` | src/main/java/li/pitschmann/knx/examples/tty/MonitorPlugin.java:217-284 | the screen starts with reset-scroll-region, home, clear; then come the header separator, exactly max(0, lines − 7) body rows and the footer separator; it ends with scroll region 5..lines−3, cursor to row 5, save cursor, and nothing after |
| `Layout.InitialScreenEmptyLines` | src/main/java/li/pitschmann/knx/examples/tty/MonitorPlugin.java:252-256 | the empty body line occurs exactly max(0, lines − 7) times on the whole screen |
| `Layout.InitialScreenBodyColor` | src/main/java/li/pitschmann/knx/examples/tty/MonitorPlugin.java:253 | the body colour occurs exactly once per body row and nowhere else |
| `Layout.InitialScreenSeparators` | src/main/java/li/pitschmann/knx/examples/tty/MonitorPlugin.java:243-262 | the separator line occurs exactly twice: under the header and as the footer |
| `Layout.InitialScreenSaves` | src/main/java/li/pitschmann/knx/examples/tty/MonitorPlugin.java:279-280 | the cursor is saved exactly once, by the last token |
| `Layout.DefaultScreen` | src/main/java/li/pitschmann/knx/examples/tty/MonitorPlugin.java:252-256 | at 80×20 there are 13 body rows and the separator has 79 characters |
| `Layout.InitialScreenTerminal` | src/main/java/li/pitschmann/knx/examples/tty/MonitorPlugin.java:270-280 | from any terminal state, after the screen the scroll region is rows 5..lines−3 and both cursor and saved cursor are at row 5 |
| `Layout.ScreenEndTerminal` | src/main/java/li/pitschmann/knx/examples/tty/MonitorPlugin.java:274-280 | the last three tokens alone fix the whole terminal state |
| `Layout.RenderScreenStart` | src/main/java/li/pitschmann/knx/examples/tty/MonitorPlugin.java:221-227 | the first three tokens are the characters `ESC[r ESC[0;0H ESC[2J` |
| `Layout.RenderScreenEnd` | src/main/java/li/pitschmann/knx/examples/tty/MonitorPlugin.java:274-280 | the last three tokens are the characters `ESC[5;<lines−3>r ESC[5;0H ESC 7` |
| `Layout.InitialScreenBytes` | src/main/java/li/pitschmann/knx/examples/tty/MonitorPlugin.java:221-283 | the printed characters begin with the reset/home/clear sequence and end with the scroll-region/home/save sequence |
| `Monitor.ComposeInitialScreen` | src/main/java/li/pitschmann/knx/examples/tty/MonitorPlugin.java:217-284 | the builder loop yields nothing when the separator throws (columns < 70), and otherwise exactly the initial screen |
| `Layout.EnvelopeStartsAtSaved` | src/main/java/li/pitschmann/knx/examples/tty/MonitorPlugin.java:363-365 | every body write starts writing at the cursor the previous write saved |
| `Layout.EnvelopeNewlines` | src/main/java/li/pitschmann/knx/examples/tty/MonitorPlugin.java:364 | a write on an empty table has no line break; any other write has exactly one |
| `Layout.EnvelopeSaves` | src/main/java/li/pitschmann/knx/examples/tty/MonitorPlugin.java:364 | every body write saves the cursor exactly once, as its last token |
| `Layout.BodyWritesNewlines` | src/main/java/li/pitschmann/knx/examples/tty/MonitorPlugin.java:363-365 | over n writes on a fresh table there are n − 1 line breaks and n cursor saves |
| `Layout.Envelope` | src/main/java/li/pitschmann/knx/examples/tty/MonitorPlugin.java:364 | definition: restore cursor, erase line, the escape code, a line break unless the table was empty, the text, reset colour, save cursor |
| `Layout.ClockWriteTerminal` | src/main/java/li/pitschmann/knx/examples/tty/MonitorPlugin.java:373-376 | the clock write begins and ends with restore-cursor and never saves; it leaves the terminal at the saved cursor with saved cursor and scroll region unchanged |
| `Layout.ClockWrite` | src/main/java/li/pitschmann/knx/examples/tty/MonitorPlugin.java:373-376 | definition: restore cursor, row 1 column 70, erase line, column columns − 19, the time, restore cursor |
| `Layout.TeardownTerminal` | src/main/java/li/pitschmann/knx/examples/tty/MonitorPlugin.java:187-194 | from any state the scroll region is the full screen again; the characters are `ESC[r ESC[0;0H ESC[2J` and a line break |
| `Layout.Teardown` | src/main/java/li/pitschmann/knx/examples/tty/MonitorPlugin.java:187-194 | definition: reset scroll region, home, clear the display, then the line break of `println` |
| `Text.PadLeft` | src/main/java/li/pitschmann/knx/examples/tty/MonitorPlugin.java:294-328 | a padded field has length max(width, length of s), ends with s, and has only spaces before it |
| `Text.NatToStringValue` | src/main/java/li/pitschmann/knx/examples/tty/MonitorPlugin.java:294 | the decimal text of a row index reads back as that index |
| `RowFormat.FormatRow` | src/main/java/li/pitschmann/knx/examples/tty/MonitorPlugin.java:294-339 | definition: the row `printLineInTable` builds from a frame and its index, or none when decoding throws |
| `RowFormat.Row` | src/main/java/li/pitschmann/knx/examples/tty/MonitorPlugin.java:294-339 | definition: index, time, source, destination and DPT padded to 10, 19, 9, 9 and 8, joined by a bar with a space either side, then the value |
| `RowFormat.DestinationText` | src/main/java/li/pitschmann/knx/examples/tty/MonitorPlugin.java:306-311 | definition: the project's group-address style for a group destination with a project, the hex bytes otherwise |
| `RowFormat.ResolveDpt` | src/main/java/li/pitschmann/knx/examples/tty/MonitorPlugin.java:313-324 | definition: the registry's datapoint type for the catalog's non-empty type string of a group destination, none otherwise |
| `RowFormat.ValueText` | src/main/java/li/pitschmann/knx/examples/tty/MonitorPlugin.java:331-338 | definition: the hex payload without a type, the decoded text and unit with one, none when decoding throws |
| `RowFormat.RowColumns` | src/main/java/li/pitschmann/knx/examples/tty/MonitorPlugin.java:294-339 | a row whose fields fit is 70 characters of columns and then the value; each padded field and each three-character column gap can be read back at its fixed position |
| `RowFormat.RowBoundaries` | src/main/java/li/pitschmann/knx/examples/tty/MonitorPlugin.java:294-329 | the row's separators fall exactly on the header's column boundaries |
| `RowFormat.ResolveDptFallback` | src/main/java/li/pitschmann/knx/examples/tty/MonitorPlugin.java:313-324 | no datapoint type iff no project, not a group address, no catalog entry, a null or empty type string, or an unknown type; otherwise it is the registry's answer |
| `RowFormat.FallbackRow` | src/main/java/li/pitschmann/knx/examples/tty/MonitorPlugin.java:307-338 | in every fallback case the row is kept, its DPT column is "n/a" and its value is the payload in hex |
| `RowFormat.DestinationFallback` | src/main/java/li/pitschmann/knx/examples/tty/MonitorPlugin.java:306-311 | without a project, or for an individual destination, the destination is in hex |
| `RowFormat.ResolvedRow` | src/main/java/li/pitschmann/knx/examples/tty/MonitorPlugin.java:326-341 | with a resolved type, the DPT column is its id and the value is its decoded text and unit; decoding that throws drops the row |
| `JavaInt.Wrap32` | src/main/java/li/pitschmann/knx/examples/tty/MonitorPlugin.java:73 | the result is a Java `int`; it equals the input when that fits, and differs from it by a multiple of 2^32 |
| `JavaInt.Increment32` | src/main/java/li/pitschmann/knx/examples/tty/MonitorPlugin.java:294 | `incrementAndGet` adds one below the maximum and wraps to the minimum at it |
| `Monitor.CounterValue` | src/main/java/li/pitschmann/knx/examples/tty/MonitorPlugin.java:294 | after k calls (up to 2^31 − 1) the counter is exactly k: indices start at 1 and go up by one |
| `Monitor.RowIndexFits` | src/main/java/li/pitschmann/knx/examples/tty/MonitorPlugin.java:294 | every row index from 1 up to 2^31 − 1 has at most ten digits, so it fits its `%10s` column without widening the row |
| `Monitor.CounterWraps` | src/main/java/li/pitschmann/knx/examples/tty/MonitorPlugin.java:73 | call 2^31 numbers its row with the smallest Java `int` |
| `Monitor.MonitorPlugin.constructor` | src/main/java/li/pitschmann/knx/examples/tty/MonitorPlugin.java:88-94 | dimensions from the two queries; empty output, empty table, counter 0, nothing running |
| `Monitor.MonitorPlugin.OnInitialization` | src/main/java/li/pitschmann/knx/examples/tty/MonitorPlugin.java:155-167 | the configuration, the project and both fake-data settings are stored; nothing else changes |
| `Monitor.MonitorPlugin.PrintInitialScreen` | src/main/java/li/pitschmann/knx/examples/tty/MonitorPlugin.java:217-284 | appends exactly the initial screen when columns ≥ 70, and nothing at all otherwise |
| `Monitor.MonitorPlugin.OnStart` | src/main/java/li/pitschmann/knx/examples/tty/MonitorPlugin.java:169-181 | draws the screen, then starts the clock and, only if enabled, the fake-data task; when drawing throws, nothing starts |
| `Monitor.MonitorPlugin.OnShutdown` | src/main/java/li/pitschmann/knx/examples/tty/MonitorPlugin.java:183-195 | every task is stopped, then the teardown is appended |
| `Monitor.MonitorPlugin.PrintToTerminal` | src/main/java/li/pitschmann/knx/examples/tty/MonitorPlugin.java:363-365 | appends one envelope, with a line break exactly when the table was not empty; afterwards the table is never empty |
| `Monitor.MonitorPlugin.PrintLineInTable` | src/main/java/li/pitschmann/knx/examples/tty/MonitorPlugin.java:291-345 | the counter goes up by one (wrapping) before formatting and numbers the row; the row is appended in the body colour, or nothing is appended if decoding threw |
| `Monitor.MonitorPlugin.OnIncomingBody` | src/main/java/li/pitschmann/knx/examples/tty/MonitorPlugin.java:197-202 | only a body carrying a CEMI frame reaches the table and the counter; a written row leaves the table non-empty, a dropped row or a body without a frame keeps the flag; nothing else changes |
| `Monitor.MonitorPlugin.OnOutgoingBody` | src/main/java/li/pitschmann/knx/examples/tty/MonitorPlugin.java:204-207 | changes nothing |
| `Monitor.MonitorPlugin.OnError` | src/main/java/li/pitschmann/knx/examples/tty/MonitorPlugin.java:209-212 | appends "[ ERROR ] " and the message in red, through the same envelope |
| `Monitor.ErrorText` | src/main/java/li/pitschmann/knx/examples/tty/MonitorPlugin.java:211 | the text is "[ ERROR ] " followed by the message, or by "null" for a null message |
| `Monitor.MonitorPlugin.ClockTick` | src/main/java/li/pitschmann/knx/examples/tty/MonitorPlugin.java:370-379 | appends one clock write at column columns − 19 |
| `Monitor.TickIndexAsWritten` | src/main/java/li/pitschmann/knx/examples/tty/MonitorPlugin.java:390 | Java's remainder: in 0..255 for a counter ≥ 0, in −255..0 for a negative one |
| `Monitor.TickIndexGoesNegative` | src/main/java/li/pitschmann/knx/examples/tty/MonitorPlugin.java:385-392 | after the counter wraps, the index as written is −255 and so is the source's device number |
| `Monitor.TickIndex` | src/main/java/li/pitschmann/knx/examples/tty/MonitorPlugin.java:390 | the index is always in 0..255 and congruent to the counter mod 256 |
| `Monitor.TickIndexAgrees` | src/main/java/li/pitschmann/knx/examples/tty/MonitorPlugin.java:390 | for a counter ≥ 0 the intended index is the one written |
| `Monitor.TickIndexNext` | src/main/java/li/pitschmann/knx/examples/tty/MonitorPlugin.java:385-390 | from tick to tick the index goes up by one mod 256, across the counter's wrap-around too |
| `Monitor.FakeValueFits` | src/main/java/li/pitschmann/knx/examples/tty/MonitorPlugin.java:404 | the value n × 127 is in 0..32385, within a signed 16-bit count |
| `Monitor.FakeCemi` | src/main/java/li/pitschmann/knx/examples/tty/MonitorPlugin.java:392-405 | definition: the frame from 15.15.n to 31/7/n carrying the DPT 8 count n × 127 |
| `Monitor.FakeRowWithoutProject` | src/main/java/li/pitschmann/knx/examples/tty/MonitorPlugin.java:390-406 | without a project a fake frame from 15.15.n to 31/7/n is always a row: destination in hex, "n/a", the payload in hex |
| `Monitor.FakeDataRunnable.Tick` | src/main/java/li/pitschmann/knx/examples/tty/MonitorPlugin.java:384-409 | one iteration: the generator's counter and the plugin's row counter each go up by one, and the fake frame for the index (the intended `TickIndex`, see Left out) goes through `printLineInTable`: a written row leaves the table non-empty, a dropped one keeps the flag; the plugin's configuration, tasks and shutdown flag are kept |
| `Monitor.FakeDataRunnable.constructor` | src/main/java/li/pitschmann/knx/examples/tty/MonitorPlugin.java:385 | the generator's own counter starts at 0, for the given plugin |
| `MainHelper.JoinSplitAll` | src/main/java/li/pitschmann/knx/examples/tty/MainHelper.java:101 | splitting at every comma loses nothing: joining the pieces with commas gives the string back |
| `MainHelper.SplitAllNoComma` | src/main/java/li/pitschmann/knx/examples/tty/MainHelper.java:101 | no piece contains a comma |
| `MainHelper.DropTrailingEmpty` | src/main/java/li/pitschmann/knx/examples/tty/MainHelper.java:101 | the result is a prefix of the input, does not end with "", and drops only empty strings |
| `MainHelper.Split` | src/main/java/li/pitschmann/knx/examples/tty/MainHelper.java:130 | definition: Java's `split(",")`, the string itself without a comma, otherwise its pieces without trailing empty ones |
| `MainHelper.SplitPieces` | src/main/java/li/pitschmann/knx/examples/tty/MainHelper.java:130 | the names listed are pieces of the string; every non-empty piece is listed; a string without a comma is its own single name |
| `MainHelper.SplitExamples` | src/main/java/li/pitschmann/knx/examples/tty/Main.java:80 | "-t,--time" gives both names, "--ip" gives itself, "a,," gives ["a"], "" gives [""] |
| `MainHelper.ExistsParameter` | src/main/java/li/pitschmann/knx/examples/tty/MainHelper.java:128-136 | true iff some comma-separated name equals some argument |
| `MainHelper.ExistsSingle` | src/main/java/li/pitschmann/knx/examples/tty/MainHelper.java:60-64 | for a single flag name, present iff it is one of the arguments |
| `MainHelper.FirstValueAt` | src/main/java/li/pitschmann/knx/examples/tty/MainHelper.java:102-105 | the earliest position holding the name that has another argument after it; no earlier position holds the name; none means no such position |
| `MainHelper.FirstValueOf` | src/main/java/li/pitschmann/knx/examples/tty/MainHelper.java:101-116 | the first name in list order that has such a position, and that position; no earlier name has one |
| `MainHelper.ParameterValue` | src/main/java/li/pitschmann/knx/examples/tty/MainHelper.java:96-119 | definition: the conversion of the argument after the first hit, the default when conversion throws or nothing is found |
| `MainHelper.GetParameterValue` | src/main/java/li/pitschmann/knx/examples/tty/MainHelper.java:96-119 | the nested loops with early return compute exactly the value the first hit describes |
| `MainHelper.ParameterValueFound` | src/main/java/li/pitschmann/knx/examples/tty/MainHelper.java:103-112 | at the first hit, the converted following argument is returned, or the default when conversion throws, and the search stops |
| `MainHelper.ParameterValueMissing` | src/main/java/li/pitschmann/knx/examples/tty/MainHelper.java:117-118 | when no name has a following argument, the default is returned |
| `MainHelper.LastPositionSkipped` | src/main/java/li/pitschmann/knx/examples/tty/MainHelper.java:105 | a name only in the last position has no value and is passed over |
| `MainHelper.IpAddress` | src/main/java/li/pitschmann/knx/examples/tty/MainHelper.java:68 | definition: the `--ip` value taken as is, none by default |
| `MainHelper.ParseConfig` | src/main/java/li/pitschmann/knx/examples/tty/MainHelper.java:58-84 | definition: the decision of `parseConfigBuilder` from `--routing`, `--nat` and the `--ip` value |
| `MainHelper.ParseConfigBuilder` | src/main/java/li/pitschmann/knx/examples/tty/MainHelper.java:58-84 | computes with the two search methods the decision the pure definition describes |
| `MainHelper.ParseConfigCases` | src/main/java/li/pitschmann/knx/examples/tty/MainHelper.java:71-83 | `--ip` with `--routing` fails; `--routing` with `--nat` and no `--ip` fails; `--ip` gives an endpoint with the NAT flag; `--routing` alone gives routing; otherwise tunneling with the NAT flag |
| `MainHelper.IpAddressFound` | src/main/java/li/pitschmann/knx/examples/tty/MainHelper.java:68 | the argument after the first `--ip` is the address |
| `MainHelper.TrailingIp` | src/main/java/li/pitschmann/knx/examples/tty/MainHelper.java:68-82 | a `--ip` that appears only as the last argument has no value, so the choice is made by `--routing` and `--nat` alone: tunneling with the NAT flag, routing, or the NAT failure; `--ip` as the only argument gives tunneling without NAT |
| `MainHelper.IpSwallowsRouting` | src/main/java/li/pitschmann/knx/examples/tty/MainHelper.java:68-72 | in `--ip --routing` the flag is taken as the address and routing is also on, so the call fails |
| `JavaInt.Quot` | src/main/java/li/pitschmann/knx/examples/tty/MainHelper.java:157-159 | Java's quotient rounds toward zero: what remains has the sign of the dividend and is smaller than the divisor |
| `JavaInt.Rem` | src/main/java/li/pitschmann/knx/examples/tty/MainHelper.java:156-158 | Java's remainder has the sign of the dividend and is smaller than the divisor; for a non-negative dividend it is Dafny's `%` |
| `JavaInt.QuotRem` | src/main/java/li/pitschmann/knx/examples/tty/MainHelper.java:156-159 | quotient and remainder recombine into the dividend |
| `MainHelper.HumanTimeOf` | src/main/java/li/pitschmann/knx/examples/tty/MainHelper.java:155-161 | days·86400 + hours·3600 + minutes·60 + seconds gives back the input for every sign; for input ≥ 0, hours < 24 and minutes, seconds < 60, all ≥ 0; for negative input, every field is ≤ 0 with the same bounds |
| `MainHelper.HumanTimeUnique` | src/main/java/li/pitschmann/knx/examples/tty/MainHelper.java:155-161 | for input ≥ 0 the fields are the only decomposition within those bounds |
| `MainHelper.ToHumanTimeFormat` | src/main/java/li/pitschmann/knx/examples/tty/MainHelper.java:155-161 | definition: "D days, H hours, M minutes, S seconds" of the truncating fields |
| `MainHelper.HumanTimeExample` | src/main/java/li/pitschmann/knx/examples/tty/MainHelper.java:161 | 90061 seconds is "1 days, 1 hours, 1 minutes, 1 seconds" |
| `MainHelper.OverdueProperties` | src/main/java/li/pitschmann/knx/examples/tty/MainHelper.java:145-147 | an elapsed time equal to the limit is not overdue; being overdue persists as time goes on; overdue iff elapsed ≥ limit + 1 |
| `MainHelper.IsOverdue` | src/main/java/li/pitschmann/knx/examples/tty/MainHelper.java:145-147 | definition: the elapsed seconds strictly exceed the limit |

## Left out

- `tput` through `ProcessBuilder`, and `Integer.parseInt` of its answer: each query enters as an optional integer. A non-numeric answer, which would throw, is not modelled.
- `Monitor.TerminalColumns`, `Monitor.TerminalLines`: the dimensions are unbounded integers. Only the row counter and the generator's counter wrap as Java `int`s. The arithmetic `lines - 4 - 3`, `lines - 3`, `columns - 70` and `columns - 19` would wrap in Java only for a `tput` answer near `Integer.MIN_VALUE`, which is not modelled.
- `LocalDateTime.now()` and `DateTimeFormatter`: the timestamp is a string parameter.
- `System.lineSeparator()` is one `Newline` token, rendered as `\n`.
- The executor service, its threads, `Sleeper` and the endless loops of both runnables. One iteration of each is a method (`ClockTick`, `FakeDataRunnable.Tick`), and the executor is the list of started tasks.
- `synchronized` on `printToTerminal`, and the fact that the clock writes outside it. The model is sequential, so interleaved output is not captured.
- The KNX library is a record of total functions: address texts, address bytes, hex formatting, the registry, decoding, the DPT 8 encoder and the project's group-address style. `CEMI.of` is a datatype constructor over the three fields the monitor reads.
- Any other exception inside `printLineInTable`'s `try` (from the library, or from padding) is not modelled. Only decoding (`dpt.of(...)`) throws in the model.
- Address validation by the KNX library (for example, that a device number is 0..255) is not part of this model.
- `parseConfigBuilder` returns which builder is created (endpoint with the NAT setting, routing, or tunneling). The builders themselves are outside the model, including whether an endpoint address means routing or tunneling.
- `Monitor.MonitorPlugin.OnStart`: an error in drawing the screen is a `false` result, not an exception reaching the caller. After `onShutdown` has called `shutdownNow()`, the source's `executorService.execute` throws `RejectedExecutionException`; the model instead starts nothing and still returns `true` when the screen was drawn.
- `Monitor.FakeDataRunnable.Tick`: builds the frame with the intended index `TickIndex` (0..255 for ever), not with line 390's Java remainder. The two agree until the counter wraps after 2^31 ticks (`TickIndexAgrees`). The remainder as written is `TickIndexAsWritten`, and its negative index is shown by `TickIndexGoesNegative`.
- Logging (slf4j) and `Main.java`'s client lifecycle and reconnect loop.
- `isOverdue` takes the elapsed seconds as a number instead of a `Stopwatch`.

## Findings

| source | as written | input that shows it | evidently intended | confidence | as-written member | corrected member |
|---|---|---|---|---|---|---|
| src/main/java/li/pitschmann/knx/examples/tty/MonitorPlugin.java:390 | `dummyIncrement.getAndIncrement() % 256` on a wrapping `AtomicInteger`: after 2^31 ticks the counter is negative and Java's `%` gives −255..0 | tick number 2^31 + 2 reads the counter value −2147483647 and gets index −255, so source 15.15.−255 and destination 31/7/−255 | an index that cycles through 0..255 for ever (`Math.floorMod`) | not executed; it needs 2^31 ticks, at least about 68 years at the default one-second interval | `Monitor.TickIndexGoesNegative` | `Monitor.TickIndex` |

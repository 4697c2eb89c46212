/**
 * `printLineInTable` without its side effects: the decision pipeline that turns
 * one CEMI frame into a table row, with the fallbacks to "n/a" and to hex.
 */
module RowFormat {
  import opened Wrappers
  import opened Text
  import opened Knx
  import Layout

  const NotAvailable: string := "n/a"

  /** The five right-justified columns and the value, joined by " | ". */
  function Row(index: string, time: string, source: string, destination: string,
               dpt: string, value: string): string
  {
    PadLeft(10, index) + " | " + PadLeft(19, time) + " | " + PadLeft(9, source) + " | "
      + PadLeft(9, destination) + " | " + PadLeft(8, dpt) + " | " + value
  }

  /** The destination in the project's style when there is a project and it is a group address, else hex. */
  function DestinationText(lib: Library, project: Option<Project>, destination: Address): string {
    if project.Some? && destination.Group? then project.value.styleText(destination.group)
    else lib.hexText(lib.addressBytes(destination))
  }

  /**
   * The datapoint type: only for a group address of a loaded project whose catalog
   * has an entry with a non-empty type string, and then whatever the registry says.
   */
  function ResolveDpt(lib: Library, project: Option<Project>, destination: Address): Option<Dpt> {
    if project.Some? && destination.Group? && destination.group in project.value.catalog then
      var dptString := project.value.catalog[destination.group];
      if dptString.Some? && dptString.value != "" then lib.registry(dptString.value) else None
    else None
  }

  /** The value column: decoded with its unit when a type resolved, else hex; None when decoding throws. */
  function ValueText(lib: Library, dpt: Option<Dpt>, data: seq<byte>): Option<string> {
    match dpt
    case None => Some(lib.hexText(data))
    case Some(d) =>
      match lib.decode(d, data)
      case None => None
      case Some(text) => Some(text + " " + d.unit)
  }

  /** The row for a frame, or None when the row is dropped because decoding threw. */
  function FormatRow(lib: Library, project: Option<Project>, cemi: Cemi, index: int, now: string): Option<string> {
    var dpt := ResolveDpt(lib, project, cemi.destination);
    var value := ValueText(lib, dpt, cemi.data);
    if value.None? then None
    else Some(Row(IntToString(index), now, lib.individualText(cemi.source),
                  DestinationText(lib, project, cemi.destination),
                  if dpt.None? then NotAvailable else dpt.value.id,
                  value.value))
  }

  /** Why no datatype resolves: at least one of the six fallback conditions holds. */
  predicate Unresolvable(lib: Library, project: Option<Project>, destination: Address) {
    || project.None?
    || !destination.Group?
    || destination.group !in project.value.catalog
    || project.value.catalog[destination.group].None?
    || project.value.catalog[destination.group].value == ""
    || lib.registry(project.value.catalog[destination.group].value).None?
  }

  /** No datapoint type resolves if and only if one of the fallback conditions holds. */
  lemma ResolveDptFallback(lib: Library, project: Option<Project>, destination: Address)
    ensures ResolveDpt(lib, project, destination).None? <==> Unresolvable(lib, project, destination)
    ensures ResolveDpt(lib, project, destination).Some? ==>
      ResolveDpt(lib, project, destination)
        == lib.registry(project.value.catalog[destination.group].value)
  {
  }

  /**
   * In every fallback case the row is never dropped, its DPT column is "n/a" and its
   * value column is the payload in hex.
   */
  lemma FallbackRow(lib: Library, project: Option<Project>, cemi: Cemi, index: int, now: string)
    requires Unresolvable(lib, project, cemi.destination)
    ensures FormatRow(lib, project, cemi, index, now)
         == Some(Row(IntToString(index), now, lib.individualText(cemi.source),
                     DestinationText(lib, project, cemi.destination),
                     NotAvailable, lib.hexText(cemi.data)))
  {
    ResolveDptFallback(lib, project, cemi.destination);
  }

  /** Without a project, or for an individual destination, the destination is shown in hex. */
  lemma DestinationFallback(lib: Library, project: Option<Project>, destination: Address)
    requires project.None? || destination.Individual?
    ensures DestinationText(lib, project, destination) == lib.hexText(lib.addressBytes(destination))
  {
  }

  /**
   * With a resolved type the DPT column is its id and the value its decoded text and
   * unit; if decoding throws, the row is dropped.
   */
  lemma ResolvedRow(lib: Library, project: Option<Project>, cemi: Cemi, index: int, now: string, d: Dpt)
    requires ResolveDpt(lib, project, cemi.destination) == Some(d)
    ensures lib.decode(d, cemi.data).None? ==> FormatRow(lib, project, cemi, index, now).None?
    ensures lib.decode(d, cemi.data).Some? ==>
      FormatRow(lib, project, cemi, index, now)
        == Some(Row(IntToString(index), now, lib.individualText(cemi.source),
                    project.value.styleText(cemi.destination.group),
                    d.id, lib.decode(d, cemi.data).value + " " + d.unit))
  {
  }

  /** Reading a field back out of a concatenation. */
  lemma SliceOfConcat(a: string, b: string, c: string)
    ensures (a + b + c)[|a|..|a| + |b|] == b
    ensures (a + b + c)[..|a|] == a
    ensures (a + b + c)[|a| + |b|..] == c
  {
    assert (a + b + c)[|a|..|a| + |b|] == (a + b)[|a|..];
  }

  /** The columns joined by " | ", as plain strings of the given widths. */
  lemma JoinedColumns(p1: string, p2: string, p3: string, p4: string, p5: string, value: string)
    requires |p1| == 10 && |p2| == 19 && |p3| == 9 && |p4| == 9 && |p5| == 8
    ensures var r := p1 + " | " + p2 + " | " + p3 + " | " + p4 + " | " + p5 + " | " + value;
      && |r| == 70 + |value|
      && r[..10] == p1 && r[13..32] == p2 && r[35..44] == p3 && r[47..56] == p4 && r[59..67] == p5
      && r[70..] == value
      && r[10..13] == " | " && r[32..35] == " | " && r[44..47] == " | "
      && r[56..59] == " | " && r[67..70] == " | "
  {
    var sep := " | ";
    var a1 := p1 + sep;
    var a2 := a1 + p2 + sep;
    var a3 := a2 + p3 + sep;
    var a4 := a3 + p4 + sep;
    var a5 := a4 + p5 + sep;
    SliceOfConcat(p1, sep, p2 + sep + p3 + sep + p4 + sep + p5 + sep + value);
    SliceOfConcat(a1, p2, sep + p3 + sep + p4 + sep + p5 + sep + value);
    SliceOfConcat(a1 + p2, sep, p3 + sep + p4 + sep + p5 + sep + value);
    SliceOfConcat(a2, p3, sep + p4 + sep + p5 + sep + value);
    SliceOfConcat(a2 + p3, sep, p4 + sep + p5 + sep + value);
    SliceOfConcat(a3, p4, sep + p5 + sep + value);
    SliceOfConcat(a3 + p4, sep, p5 + sep + value);
    SliceOfConcat(a4, p5, sep + value);
    SliceOfConcat(a4 + p5, sep, value);
  }

  /**
   * A row whose fields fit their widths is 70 characters of columns followed by the
   * value, and each field can be read back from its place.
   */
  lemma RowColumns(index: string, time: string, source: string, destination: string,
                   dpt: string, value: string)
    requires |index| <= 10 && |time| <= 19 && |source| <= 9 && |destination| <= 9 && |dpt| <= 8
    ensures var r := Row(index, time, source, destination, dpt, value);
      && |r| == 70 + |value|
      && r[..10] == PadLeft(10, index)
      && r[13..32] == PadLeft(19, time)
      && r[35..44] == PadLeft(9, source)
      && r[47..56] == PadLeft(9, destination)
      && r[59..67] == PadLeft(8, dpt)
      && r[70..] == value
      && r[10..13] == " | " && r[32..35] == " | " && r[44..47] == " | "
      && r[56..59] == " | " && r[67..70] == " | "
  {
    JoinedColumns(PadLeft(10, index), PadLeft(19, time), PadLeft(9, source),
                  PadLeft(9, destination), PadLeft(8, dpt), value);
  }

  /** The separators of a row fall on the column boundaries of the table header. */
  lemma RowBoundaries(index: string, time: string, source: string, destination: string,
                      dpt: string, value: string, p: int)
    requires |index| <= 10 && |time| <= 19 && |source| <= 9 && |destination| <= 9 && |dpt| <= 8
    requires Layout.IsColumnBoundary(p)
    ensures p < |Row(index, time, source, destination, dpt, value)|
         && Row(index, time, source, destination, dpt, value)[p] == '|'
    ensures p < |Layout.Header| && Layout.Header[p] == '|'
  {
    var r := Row(index, time, source, destination, dpt, value);
    RowColumns(index, time, source, destination, dpt, value);
    Layout.ColumnsLineUp(p);
    assert r[p] == r[p - 1 .. p + 2][1];
  }
}

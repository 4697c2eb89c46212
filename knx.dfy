/**
 * The parts of the KNX library the monitor uses, reduced to values and to
 * total functions supplied from outside: address rendering, the project's
 * group-address catalog, the datapoint-type registry, decoding and hex output.
 */
module Knx {
  import opened Wrappers

  type byte = b: int | 0 <= b < 256

  /** An individual (point-to-point) address area.line.device. */
  datatype IndividualAddress = IndividualAddress(area: int, line: int, device: int)

  /** A three-level group (multicast) address main/middle/sub. */
  datatype GroupAddress = GroupAddress(main: int, middle: int, sub: int)

  /** A destination is either kind of address. */
  datatype Address = Individual(individual: IndividualAddress) | Group(group: GroupAddress)

  /** The part of a CEMI frame the monitor reads. */
  datatype Cemi = Cemi(source: IndividualAddress, destination: Address, data: seq<byte>)

  /** A datapoint type found in the registry. */
  datatype Dpt = Dpt(id: string, unit: string)

  /**
   * A loaded project (.knxproj): its group-address display style and its catalog, which
   * maps a known group address to its datapoint-type string (None for a null string).
   */
  datatype Project = Project(
    styleText: GroupAddress -> string,
    catalog: map<GroupAddress, Option<string>>)

  /** The library functions, none of which is part of this model. */
  datatype Library = Library(
    individualText: IndividualAddress -> string,      // IndividualAddress.getAddress()
    addressBytes: Address -> seq<byte>,               // KnxAddress.toByteArray()
    hexText: seq<byte> -> string,                     // ByteFormatter.formatHexAsString
    registry: string -> Option<Dpt>,                  // DataPointRegistry.getDataPointType (None for null)
    decode: (Dpt, seq<byte>) -> Option<string>,       // dpt.of(data).toText() (None when it throws)
    encodeCount: int -> seq<byte>)                    // DPT8.VALUE_2_OCTET_COUNT.of(v)
}

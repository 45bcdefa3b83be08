/** The table of contents of one segment's data file: which bytes belong to which table. */
module SegmentToc {

  type Byte = b: int | 0 <= b < 256

  type Bytes = seq<Byte>

  /** The bytes from first up to, but not including, last. */
  datatype Range = Range(first: nat, last: nat)

  type Entries = map<nat, Range>

  /** Looking up a table that has no entry gives an empty range at the start of the file. */
  function Entry(entries: Entries, oid: nat): (r: Range)
    ensures oid !in entries ==> r.first == 0 && r.last == 0
  {
    if oid in entries then entries[oid] else Range(0, 0)
  }

  function Length(entries: Entries, oid: nat): nat {
    var r := Entry(entries, oid);
    if r.first <= r.last then r.last - r.first else 0
  }

  /** The bytes of the file that the entry of a table stands for. */
  function Contents(file: Bytes, entries: Entries, oid: nat): Bytes
    requires Entry(entries, oid).first <= Entry(entries, oid).last <= |file|
  {
    file[Entry(entries, oid).first..Entry(entries, oid).last]
  }

  class SegmentTOC {
    var dataEntries: Entries

    constructor ()
      ensures dataEntries == map[]
    {
      dataEntries := map[];
    }

    method AddSegmentDataEntry(oid: nat, startByte: nat, endByte: nat)
      modifies this
      ensures dataEntries == old(dataEntries)[oid := Range(startByte, endByte)]
    {
      dataEntries := dataEntries[oid := Range(startByte, endByte)];
    }
  }
}

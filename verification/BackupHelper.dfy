/** The backup helper of a segment: the data of all tables, one after the other, in a single file. */
module BackupHelper {
  import opened Collections
  import opened SegmentToc

  /** The entries of the first n tables cover size bytes in order, without gaps. */
  ghost predicate LaidOut(entries: Entries, size: nat, tables: seq<nat>, n: nat)
    requires n <= |tables|
  {
    && entries.Keys == Visited(tables, n)
    && size == (if n == 0 then 0 else Entry(entries, tables[n - 1]).last)
    && (n > 0 ==> Entry(entries, tables[0]).first == 0)
    && forall i, j | 0 <= i < j < n && j == i + 1 :: Entry(entries, tables[j]).first == Entry(entries, tables[i]).last
  }

  /** The file consists of the first n tables, and every entry points at its table's data. */
  ghost predicate HoldsTables(file: Bytes, entries: Entries, tables: seq<nat>, data: map<nat, Bytes>, n: nat)
    requires n <= |tables|
  {
    LaidOut(entries, |file|, tables, n) && forall i | 0 <= i < n :: HoldsTable(file, entries, tables[i], data)
  }

  ghost predicate HoldsTable(file: Bytes, entries: Entries, oid: nat, data: map<nat, Bytes>) {
    && oid in data
    && Entry(entries, oid).first <= Entry(entries, oid).last <= |file|
    && Contents(file, entries, oid) == data[oid]
  }

  /** Copying each pipe to the end of the file and recording the offset it started and ended at. */
  method DoBackupAgent(oidList: seq<nat>, data: map<nat, Bytes>, tocfile: SegmentTOC) returns (file: Bytes)
    requires NoDup(oidList) && forall oid | oid in oidList :: oid in data
    requires tocfile.dataEntries == map[]
    modifies tocfile
    ensures HoldsTables(file, tocfile.dataEntries, oidList, data, |oidList|)
  {
    var lastRead := 0;
    file := [];
    for i := 0 to |oidList|
      invariant lastRead == |file|
      invariant HoldsTables(file, tocfile.dataEntries, oidList, data, i)
    {
      ghost var before, entries := file, tocfile.dataEntries;
      file := file + data[oidList[i]];
      var numBytes := |data[oidList[i]]|;
      var lastProcessed := lastRead + numBytes;
      tocfile.AddSegmentDataEntry(oidList[i], lastRead, lastProcessed);
      lastRead := lastProcessed;
      AppendTable(before, entries, oidList, data, i, file, tocfile.dataEntries);
    }
  }

  lemma KeepsTable(file: Bytes, entries: Entries, more: Bytes, entries': Entries, oid: nat, data: map<nat, Bytes>)
    requires HoldsTable(file, entries, oid, data) && Entry(entries', oid) == Entry(entries, oid)
    ensures HoldsTable(file + more, entries', oid, data)
  {
  }

  lemma AddsTable(file: Bytes, entries: Entries, oid: nat, data: map<nat, Bytes>)
    requires oid in data && Entry(entries, oid) == Range(|file|, |file| + |data[oid]|)
    ensures HoldsTable(file + data[oid], entries, oid, data)
  {
  }

  lemma AppendEntry(entries: Entries, size: nat, tables: seq<nat>, n: nat, size': nat)
    requires n < |tables| && NoDup(tables) && LaidOut(entries, size, tables, n)
    ensures LaidOut(entries[tables[n] := Range(size, size')], size', tables, n + 1)
    ensures forall i | 0 <= i < n ::
              Entry(entries[tables[n] := Range(size, size')], tables[i]) == Entry(entries, tables[i])
  {
    VisitOne(tables, n);
  }

  lemma AppendTable(file: Bytes, entries: Entries, tables: seq<nat>, data: map<nat, Bytes>, n: nat, file': Bytes,
                    entries': Entries)
    requires n < |tables| && NoDup(tables) && tables[n] in data
    requires HoldsTables(file, entries, tables, data, n)
    requires file' == file + data[tables[n]] &&
             entries' == entries[tables[n] := Range(|file|, |file| + |data[tables[n]]|)]
    ensures HoldsTables(file', entries', tables, data, n + 1)
  {
    AppendEntry(entries, |file|, tables, n, |file'|);
    forall i | 0 <= i < n + 1
      ensures HoldsTable(file', entries', tables[i], data)
    {
      if i < n {
        KeepsTable(file, entries, data[tables[n]], entries', tables[i], data);
      } else {
        AddsTable(file, entries', tables[n], data);
      }
    }
  }

  /** The ranges of the tables do not overlap and come in the order the tables were backed up. */
  lemma {:induction false} InOrder(file: Bytes, entries: Entries, tables: seq<nat>, data: map<nat, Bytes>, n: nat,
                                   i: nat, j: nat)
    requires n <= |tables| && HoldsTables(file, entries, tables, data, n) && i < j < n
    ensures Entry(entries, tables[i]).last <= Entry(entries, tables[j]).first
    decreases j
  {
    assert HoldsTable(file, entries, tables[j - 1], data);
    if i < j - 1 {
      InOrder(file, entries, tables, data, n, i, j - 1);
    }
  }
}

/** What the restore helper delivers, in terms of what the backup helpers of all contents once stored. */
module BackupRestore {
  import opened Collections
  import opened OidLists
  import opened RestoreWindow
  import opened SegmentToc
  import opened RestoreHelper
  import BackupHelper

  /** The tables listed for a batch are among those backed up, in the order they were backed up. */
  ghost predicate InBackupOrder(list: seq<Item>, b: nat, tables: seq<nat>) {
    && (forall i | 0 <= i < |list| && list[i].batch == b :: list[i].oid in tables)
    && forall i, j, p, q | 0 <= i < j < |list| && list[i].batch == b && list[j].batch == b
                           && 0 <= p < |tables| && 0 <= q < |tables|
                           && tables[p] == list[i].oid && tables[q] == list[j].oid :: p < q
  }

  /** Whatever subset of the tables is restored, the entries recorded by the backup fit its list. */
  lemma BackupFits(file: Bytes, entries: Entries, tables: seq<nat>, data: map<nat, Bytes>, list: seq<Item>, b: nat)
    requires BackupHelper.HoldsTables(file, entries, tables, data, |tables|) && InBackupOrder(list, b, tables)
    ensures EntriesFit(file, entries, list, b)
    ensures forall i | 0 <= i < |list| && list[i].batch == b ::
              list[i].oid in data && Contents(file, entries, list[i].oid) == data[list[i].oid]
  {
    forall i | 0 <= i < |list| && list[i].batch == b
      ensures BackupHelper.HoldsTable(file, entries, list[i].oid, data)
    {
      var p :| 0 <= p < |tables| && tables[p] == list[i].oid;
    }
    forall i, j | 0 <= i < j < |list| && list[i].batch == b && list[j].batch == b
      ensures Entry(entries, list[i].oid).last <= Entry(entries, list[j].oid).first
    {
      var p :| 0 <= p < |tables| && tables[p] == list[i].oid;
      var q :| 0 <= q < |tables| && tables[q] == list[j].oid;
      BackupHelper.InOrder(file, entries, tables, data, |tables|, p, q);
    }
  }

  /** Every content of the backup that the helper reads was written by a backup helper. */
  ghost predicate BackedUp(job: Job, tables: seq<nat>, data: map<nat, map<nat, Bytes>>) {
    forall b | HasData(job.agent, b) :: BackedUpBatch(job, tables, data, b)
  }

  ghost predicate BackedUpBatch(job: Job, tables: seq<nat>, data: map<nat, map<nat, Bytes>>, b: nat) {
    var c := ContentOf(job.agent, b);
    && InBackupOrder(job.list, b, tables)
    && c in data && c in job.files && c in job.tocs
    && BackupHelper.HoldsTables(job.files[c], job.tocs[c], tables, data[c], |tables|)
  }

  /** No skip before item i has upset the stream of its batch. */
  ghost predicate Undisturbed(job: Job, i: nat)
    requires i < |job.list| == |job.outcomes|
  {
    var b := job.list[i].batch;
    HasData(job.agent, b) && FromSubset(job, b) ==> forall k | 0 <= k < i :: !Upsets(job, b, k)
  }

  /**
   * The round trip: unless a skip has upset its stream, a complete copy gives the pipe of an item exactly the bytes
   * that its table had on the content of the item when it was backed up, and no bytes for a batch beyond the contents
   * of the backup; a copy that fails gives it no other bytes than the first of these.
   */
  lemma RoundTrip(job: Job, sent: seq<Delivery>, tables: seq<nat>, data: map<nat, map<nat, Bytes>>, i: nat)
    requires ValidJob(job) && i < |sent| <= |job.list| && SentRight(job, sent)
    requires BackedUp(job, tables, data) && Undisturbed(job, i)
    ensures sent[i].Written? <==> !Skipped(job.list, job.outcomes, job.list[i].oid, i + 1)
    ensures Succeeds(sent[i]) <==> Delivered(job, i)
    ensures sent[i].Written? && HasData(job.agent, job.list[i].batch) ==>
              && ContentOf(job.agent, job.list[i].batch) in data
              && job.list[i].oid in data[ContentOf(job.agent, job.list[i].batch)]
              && var stored := data[ContentOf(job.agent, job.list[i].batch)][job.list[i].oid];
                 if sent[i].complete then sent[i].bytes == stored else sent[i].bytes <= stored
    ensures sent[i].Written? && !HasData(job.agent, job.list[i].batch) ==> sent[i] == Written([], true)
  {
    var b := job.list[i].batch;
    if HasData(job.agent, b) {
      assert BackedUpBatch(job, tables, data, b);
      BackupFits(FileFor(job, b), TocFor(job, b), tables, data[ContentOf(job.agent, b)], job.list, b);
      UnshiftedIff(job, b, i);
      UnshiftedGetsItsData(job, i);
    }
  }

  /** No copy breaks and every reader can discard; tables may be skipped. */
  ghost predicate OnlySkips(job: Job) {
    forall o | o in job.outcomes :: o == Copied || o == SkipFile({})
  }

  /** As long as no skip upsets a stream and nothing else goes wrong, it is not lost. */
  lemma UndisturbedIsNotLost(job: Job, b: nat, n: nat)
    requires ValidJob(job) && n <= |job.list| && OnlySkips(job) && HasData(job.agent, b)
    requires forall k | 0 <= k < n :: !Upsets(job, b, k)
    ensures !Lost(job, b, n)
  {
    assert Fit(job, b);
    forall j | 0 <= j < n
      ensures !FailsAt(job, b, j)
    {
      assert job.outcomes[j] in job.outcomes;
      UnshiftedIff(job, b, j);
      var oid := job.list[j].oid;
      OffsetGrows(TocFor(job, b), job.list, b, j, |job.list|);
      RunOffset(TocFor(job, b), job.list, job.agent.batches, b, j);
      OffsetGrows(TocFor(job, b), job.list, b, RunEnd(job.list, j, oid), |job.list|);
      if FailsAt(job, b, j) {
        assert SkipsAt(job.list, job.outcomes, j) && !Upsets(job, b, j);
        assert false;
      }
    }
  }

  /**
   * Where tables are skipped and nothing else goes wrong, an item with bytes that is not skipped itself gets its own
   * bytes out of a subset stream if and only if no skip before it has upset the stream.
   */
  lemma OwnBytesIff(job: Job, i: nat)
    requires ValidJob(job) && i < |job.list| && OnlySkips(job)
    requires HasData(job.agent, job.list[i].batch) && FromSubset(job, job.list[i].batch)
    requires !Skipped(job.list, job.outcomes, job.list[i].oid, i + 1)
    requires DataLen(job, job.list[i].batch, job.list[i].oid) > 0
    ensures Delivered(job, i) && At(job, job.list[i].batch, i, i) == StartOf(job, job.list[i].batch, i) <==>
              Undisturbed(job, i)
    ensures Undisturbed(job, i) ==> Sent(job, i) == Written(DataFor(job, job.list[i]), true)
  {
    AtOwnDataIff(job, i);
    if Undisturbed(job, i) {
      UndisturbedIsNotLost(job, job.list[i].batch, i);
      UnshiftedIff(job, job.list[i].batch, i);
      UnshiftedGetsItsData(job, i);
      assert job.outcomes[i] in job.outcomes;
    }
  }

  /** With nothing skipped and nothing broken, every pipe gets its data. */
  lemma QuietRunDeliversAll(job: Job, i: nat)
    requires ValidJob(job) && i < |job.list| && forall o | o in job.outcomes :: o == Copied
    ensures Sent(job, i) == Written(DataFor(job, job.list[i]), true)
  {
    var b := job.list[i].batch;
    forall k | 0 <= k < |job.outcomes|
      ensures job.outcomes[k] == Copied
    {
      assert job.outcomes[k] in job.outcomes;
    }
    UnshiftedIff(job, b, i);
    UnshiftedGetsItsData(job, i);
    if HasData(job.agent, b) {
      UndisturbedIsNotLost(job, b, i);
    }
  }

  /** Without a larger backup cluster there is one batch, and skipping never upsets a stream. */
  lemma OneBatchStaysAligned(job: Job, b: nat, k: nat)
    requires ValidJob(job) && job.agent.batches == 1 && HasData(job.agent, b) && k < |job.list|
    ensures !Upsets(job, b, k)
  {
    assert ListedFrom(job.list, k, job.list[k]);
  }

  /** A replicated table r is skipped that is listed before a distributed table t, with two batches. */
  ghost predicate SkipsReplicated(job: Job, r: nat, t: nat) {
    && r != t
    && job.list == [Item(r, 0), Item(t, 0), Item(t, 1)]
    && job.outcomes == [SkipFile({}), Copied, Copied]
    && job.agent.batches == 2 && HasData(job.agent, 0) && HasData(job.agent, 1)
    && FromSubset(job, 0) && FromSubset(job, 1)
  }

  lemma SkipUpsetsSecondBatchOnly(job: Job, r: nat, t: nat)
    requires SkipsReplicated(job, r, t) && DataLen(job, 1, r) > 0
    ensures Upsets(job, 1, 0) && !Upsets(job, 0, 0)
    ensures !Skipped(job.list, job.outcomes, t, 2)
    ensures Skipped(job.list, job.outcomes, r, 1)
  {
    assert ListedFrom(job.list, 0, Item(r, 0)) by {
      assert job.list[0] == Item(r, 0);
    }
    assert SkipsAt(job.list, job.outcomes, 0);
  }

  /**
   * A replicated table is listed for the first batch only, but skipping it drops as many bytes from the streams of
   * the later batches too: the next table gets its data in the first batch, and in the second it gets its data without
   * as many of the first bytes, though nothing was wrong with it.
   */
  lemma SkippedReplicatedTableUpsetsStream(job: Job, r: nat, t: nat)
    requires ValidJob(job) && SkipsReplicated(job, r, t)
    requires DataLen(job, 1, r) > 0 && DataLen(job, 0, t) > 0 && DataLen(job, 1, t) > 0
    ensures Sent(job, 0) == Untouched
    ensures Sent(job, 1) == Written(DataFor(job, Item(t, 0)), true)
    ensures |DataFor(job, Item(t, 1))| == DataLen(job, 1, t)
    ensures Sent(job, 2) == Written(DataFor(job, Item(t, 1))[Least(DataLen(job, 1, r), DataLen(job, 1, t))..], false)
  {
    SkipUpsetsSecondBatchOnly(job, r, t);
    assert OnlySkips(job);
    OwnBytesIff(job, 1);
    SecondBatchRunsOut(job, r, t);
  }

  lemma SecondBatchOffsets(job: Job, r: nat, t: nat)
    requires |job.list| == |job.outcomes| && SkipsReplicated(job, r, t) && DataLen(job, 1, r) > 0
    ensures StartOf(job, 1, 0) == StartOf(job, 1, 2) == 0 && StartOf(job, 1, 3) == DataLen(job, 1, t)
    ensures Shift(job, 1, 2) == DataLen(job, 1, r)
    ensures Rest(job, 1, 0) == DataLen(job, 1, t)
  {
    SkipUpsetsSecondBatchOnly(job, r, t);
    assert Shift(job, 1, 0) == 0 && Shift(job, 1, 1) == DataLen(job, 1, r);
    var toc, list := TocFor(job, 1), job.list;
    assert Offset(toc, list, 1, 0) == 0;
    assert Offset(toc, list, 1, 1) == 0;
    assert Offset(toc, list, 1, 2) == 0;
  }

  /** The second stream is lost by the skip exactly if the skipped table is longer than all of it. */
  lemma SecondBatchLostIff(job: Job, r: nat, t: nat)
    requires |job.list| == |job.outcomes| && SkipsReplicated(job, r, t) && DataLen(job, 1, r) > 0
    ensures Lost(job, 1, 2) <==> DataLen(job, 1, r) > DataLen(job, 1, t)
  {
    SecondBatchOffsets(job, r, t);
    LostNext(job, 1, 1);
    LostNext(job, 1, 0);
  }

  lemma SecondBatchRunsOut(job: Job, r: nat, t: nat)
    requires ValidJob(job) && SkipsReplicated(job, r, t)
    requires DataLen(job, 1, r) > 0 && DataLen(job, 1, t) > 0
    ensures |DataFor(job, Item(t, 1))| == DataLen(job, 1, t)
    ensures !Delivered(job, 2)
    ensures Given(job, 2) == DataFor(job, Item(t, 1))[Least(DataLen(job, 1, r), DataLen(job, 1, t))..]
  {
    SkipUpsetsSecondBatchOnly(job, r, t);
    SecondBatchOffsets(job, r, t);
    SecondBatchLostIff(job, r, t);
    UpsetStreamRunsOut(job, 2);
    DataInStream(job, 2);
    StreamSize(job, 1);
  }

  /** So it is in the helper's main loop, for all data of the two tables. */
  method ServeSkippedReplicated(job: Job, r: nat, t: nat, readers: map<nat, DataReader>)
    returns (sent: seq<Delivery>)
    requires ValidJob(job) && SkipsReplicated(job, r, t) && job.agent.queue <= 3 && job.agent.onErrorContinue
    requires DataLen(job, 1, r) > 0 && DataLen(job, 0, t) > 0 && DataLen(job, 1, t) > 0
    requires Readers(job, readers) && AtStart(job, readers)
    modifies readers.Values
    ensures |DataFor(job, Item(t, 1))| == DataLen(job, 1, t)
    ensures sent == [Untouched, Written(DataFor(job, Item(t, 0)), true),
                     Written(DataFor(job, Item(t, 1))[Least(DataLen(job, 1, r), DataLen(job, 1, t))..], false)]
  {
    var pipes;
    sent, pipes := ServeList(job, readers);
    SkippedReplicatedTableUpsetsStream(job, r, t);
    assert sent == [Sent(job, 0), Sent(job, 1), Sent(job, 2)];
  }

  /** Both contents have one byte of table 1, then one byte of table 2. */
  ghost predicate OneByteEach(job: Job) {
    forall b | b <= 1 ::
      FileFor(job, b) == [7, 8] && TocFor(job, b) == map[1 := Range(0, 1), 2 := Range(1, 2)]
  }

  lemma OneByteFits(job: Job, b: nat)
    requires b <= 1 && SkipsReplicated(job, 1, 2) && OneByteEach(job)
    ensures Fit(job, b)
  {
    var file, toc, list := FileFor(job, b), TocFor(job, b), job.list;
    assert file == [7, 8] && Entry(toc, 1) == Range(0, 1) && Entry(toc, 2) == Range(1, 2);
    assert EntriesFit(file, toc, list, b);
  }

  lemma OneByteWellFormed(job: Job)
    requires SkipsReplicated(job, 1, 2)
    ensures WellFormed(job.list, 2)
  {
  }

  lemma OneByteStreams(job: Job)
    requires SkipsReplicated(job, 1, 2) && OneByteEach(job) && Fit(job, 0) && Fit(job, 1)
    ensures StreamOf(job, 0) == [7, 8] && StreamOf(job, 1) == [8]
  {
    forall b: nat | b <= 1
      ensures StreamOf(job, b) == if b == 0 then [7, 8] else [8]
    {
      var file, toc, list := FileFor(job, b), TocFor(job, b), job.list;
      assert Contents(file, toc, 1) == [7] && Contents(file, toc, 2) == [8];
      assert SubsetStream(file, toc, list, b, 0) == [];
      assert SubsetStream(file, toc, list, b, 1) == if b == 0 then [7] else [];
      assert SubsetStream(file, toc, list, b, 2) == if b == 0 then [7, 8] else [];
      assert SubsetStream(file, toc, list, b, 3) == if b == 0 then [7, 8] else [8];
    }
  }

  /** There is such a job: a helper with two contents, of which the second is restored as a batch of its own. */
  method OneByteJob() returns (job: Job)
    ensures SkipsReplicated(job, 1, 2) && OneByteEach(job)
    ensures ValidAgent(job.agent) && job.agent.queue <= 3 && job.agent.onErrorContinue
    ensures ContentOf(job.agent, 0) == 0 && ContentOf(job.agent, 1) == 1
  {
    var entries := map[1 := Range(0, 1), 2 := Range(1, 2)];
    job := Job(Agent(0, 1, 2, true, 2, 2, true), [Item(1, 0), Item(2, 0), Item(2, 1)],
               [SkipFile({}), Copied, Copied], map[0 := entries, 1 := entries],
               map[0 := [7, 8], 1 := [7, 8]], {0, 1});
  }

  lemma OneByteValid(job: Job)
    requires SkipsReplicated(job, 1, 2) && OneByteEach(job) && ValidAgent(job.agent)
    ensures ValidJob(job)
    ensures DataLen(job, 1, 1) == 1 && DataLen(job, 0, 2) == 1 && DataLen(job, 1, 2) == 1
    ensures DataFor(job, Item(2, 0)) == [8] && DataFor(job, Item(2, 1)) == [8]
    ensures DataFor(job, Item(2, 1))[1..] == []
  {
    OneByteWellFormed(job);
    forall b | HasData(job.agent, b)
      ensures Fit(job, b)
    {
      OneByteFits(job, b);
    }
    assert Fit(job, 0) && Fit(job, 1);
  }

  lemma TwoOwnReaders(a: Agent, first: DataReader, second: DataReader)
    requires a.batches == 2 && ContentOf(a, 0) == 0 && ContentOf(a, 1) == 1 && HasData(a, 0) && HasData(a, 1)
    requires first != second
    ensures OwnReaders(a, map[0 := first, 1 := second])
  {
  }

  lemma OneByteReaders(job: Job, first: DataReader, second: DataReader)
    requires SkipsReplicated(job, 1, 2) && OneByteEach(job) && ValidJob(job)
    requires ContentOf(job.agent, 0) == 0 && ContentOf(job.agent, 1) == 1
    requires first != second && first.kind == Subset && second.kind == Subset
    requires first.stream == [7, 8] && second.stream == [8]
    ensures Readers(job, map[0 := first, 1 := second])
  {
    assert Fit(job, 0) && Fit(job, 1);
    OneByteStreams(job);
    assert ReaderFor(job, 0, first) && ReaderFor(job, 1, second);
    TwoOwnReaders(job.agent, first, second);
    forall b | HasData(job.agent, b)
      ensures b == 0 || b == 1
    {
    }
  }

  /** For instance, with one byte of each table the byte 8 of table 2 never arrives in the second batch. */
  method ServeOneByteEach() returns (sent: seq<Delivery>)
    ensures sent == [Untouched, Written([8], true), Written([], false)]
  {
    var job := OneByteJob();
    var first := new DataReader(Subset, [7, 8]);
    var second := new DataReader(Subset, [8]);
    OneByteValid(job);
    OneByteReaders(job, first, second);
    sent := ServeSkippedReplicated(job, 1, 2, map[0 := first, 1 := second]);
  }
}

/**
 * The restore helper of a segment with a single data file: it serves the items of its list one by one, reading
 * the data of each from the file of the content it belongs to, and skips tables and survives failed copies.
 */
module RestoreHelper {
  import opened Collections
  import opened OidLists
  import opened RestoreWindow
  import opened SegmentToc

  datatype ReaderKind = Seekable | NonSeekable | Subset

  datatype ReaderState = ReaderState(kind: ReaderKind, stream: Bytes, position: nat, discardErr: bool)

  /** The copy ends before all bytes are written. */
  predicate Breaks(outcome: Outcome, len: nat) {
    outcome.Broken? && outcome.bytes < len
  }

  /** How many of len bytes the copy can write before its pipe breaks, if it does. */
  function Limit(outcome: Outcome, len: nat): nat {
    if Breaks(outcome, len) then outcome.bytes else len
  }

  /** The copy ends early while there is data, and the rest cannot be discarded. */
  predicate LosesRest(outcome: Outcome, len: nat, available: nat) {
    Breaks(outcome, len) && outcome.bytes <= available && (!outcome.clean || len > available)
  }

  /** A reader of the data of one content: a position in the bytes its file or plugin gives it. */
  class DataReader {
    const kind: ReaderKind
    const stream: Bytes
    var position: nat
    var discardErr: bool

    constructor (kind: ReaderKind, stream: Bytes)
      ensures this.kind == kind && this.stream == stream && position == 0 && !discardErr
    {
      this.kind, this.stream, position, discardErr := kind, stream, 0, false;
    }

    function State(): ReaderState
      reads this
    {
      ReaderState(kind, stream, position, discardErr)
    }

    function Available(): nat
      reads this
    {
      if position <= |stream| then |stream| - position else 0
    }

    predicate Lost()
      reads this
    {
      kind == Subset && discardErr
    }

    /** Moving forward; only a reader that cannot seek notices the end of its data. */
    method PositionReader(delta: nat) returns (ok: bool)
      modifies this`position
      ensures ok <==> kind != NonSeekable || delta <= old(Available())
      ensures ok ==> position == old(position) + if kind == Subset then 0 else delta
    {
      match kind {
        case Seekable =>
          position, ok := position + delta, true;
        case NonSeekable =>
          ok := delta <= Available();
          position := position + if ok then delta else Available();
        case Subset =>
          ok := true;
      }
    }

    /** Reading and dropping num bytes; works says whether the underlying stream can be read. */
    method DiscardData(num: nat, works: bool) returns (discarded: nat, ok: bool)
      requires kind == Subset
      modifies this
      ensures discarded <= num
      ensures ok <==> !old(discardErr) && works && num <= old(Available())
      ensures discardErr == !ok
      ensures ok ==> position == old(position) + num
    {
      if discardErr {
        return 0, false;
      }
      discarded := if !works then 0 else if num <= Available() then num else Available();
      position := position + discarded;
      ok := works && discarded == num;
      if !ok {
        discardErr := true;
      }
    }

    /** Copying num bytes to the pipe; copied is what was written, and bytesRead counts what was read or dropped. */
    method CopyData(num: nat, outcome: Outcome, onErrorContinue: bool)
      returns (copied: Bytes, bytesRead: nat, ok: bool)
      modifies this
      ensures bytesRead <= num
      ensures ok <==> !old(Lost()) && num <= old(Available()) && !Breaks(outcome, num)
      ensures ok ==> bytesRead == num && position == old(position) + num && discardErr == old(discardErr)
      ensures copied == if old(Lost()) then [] else Slice(stream, old(position), Limit(outcome, num))
      ensures kind != Subset ==> position == old(position) + bytesRead
      ensures old(Lost()) ==> discardErr && bytesRead == 0
      ensures !ok && kind == Subset && !old(discardErr) && onErrorContinue ==>
                && discardErr == LosesRest(outcome, num, old(Available()))
                && (!discardErr && old(position) <= |stream| ==>
                      position == old(position) + Least(num, old(Available())))
    {
      if kind == Subset && discardErr {
        return [], 0, false;
      }
      var limit := Limit(outcome, num);
      bytesRead := if limit <= Available() then limit else Available();
      copied := if position <= |stream| then stream[position..position + bytesRead] else [];
      position := position + bytesRead;
      ok := bytesRead == num;
      if kind == Subset && !ok && bytesRead == limit && onErrorContinue {
        var discarded, discardedAll := DiscardData(num - bytesRead, outcome.clean);
        bytesRead := bytesRead + discarded;
      }
    }
  }

  function Least(x: nat, y: nat): nat {
    if x <= y then x else y
  }

  /** The arguments of a helper: its own content, the sizes of the two clusters, and its window of pipes. */
  datatype Agent = Agent(
    content: nat,
    dest: nat,
    orig: nat,
    resize: bool,
    batches: nat,
    queue: nat,
    onErrorContinue: bool)

  predicate ValidAgent(a: Agent) {
    a.batches >= 1 && a.queue >= 1 && (a.batches > 1 ==> a.dest >= 1)
  }

  function ContentOf(a: Agent, b: nat): nat {
    a.content + a.dest * b
  }

  /** A batch stands for a content of the backup, except perhaps the last one of a resize. */
  predicate HasData(a: Agent, b: nat) {
    b < a.batches && !(a.resize && ContentOf(a, b) >= a.orig)
  }

  lemma OwnContent(a: Agent, b: nat, c: nat)
    requires ValidAgent(a) && b < a.batches && c < a.batches && b != c
    ensures ContentOf(a, b) != ContentOf(a, c)
  {
    assert ContentOf(a, b) - ContentOf(a, c) == a.dest * (b - c);
  }

  // ----- The data of one content -----

  /** The listed tables of a batch have entries in the order of the list, inside the file. */
  ghost predicate EntriesFit(file: Bytes, toc: Entries, list: seq<Item>, b: nat) {
    && (forall i | 0 <= i < |list| && list[i].batch == b ::
          Entry(toc, list[i].oid).first <= Entry(toc, list[i].oid).last <= |file|)
    && forall i, j | 0 <= i < j < |list| && list[i].batch == b && list[j].batch == b ::
         Entry(toc, list[i].oid).last <= Entry(toc, list[j].oid).first
  }

  /** How many bytes the listed ranges of a batch have in the first n items. */
  ghost function Offset(toc: Entries, list: seq<Item>, b: nat, n: nat): nat
    requires n <= |list|
  {
    if n == 0 then 0
    else Offset(toc, list, b, n - 1) + if list[n - 1].batch == b then Length(toc, list[n - 1].oid) else 0
  }

  lemma {:induction false} OffsetGrows(toc: Entries, list: seq<Item>, b: nat, m: nat, n: nat)
    requires m <= n <= |list|
    ensures Offset(toc, list, b, m) <= Offset(toc, list, b, n)
    decreases n
  {
    if m < n {
      OffsetGrows(toc, list, b, m, n - 1);
    }
  }

  /** What a plugin that restores a subset is asked for: the listed ranges of a batch, one after the other. */
  ghost function SubsetStream(file: Bytes, toc: Entries, list: seq<Item>, b: nat, n: nat): Bytes
    requires n <= |list| && EntriesFit(file, toc, list, b)
  {
    if n == 0 then []
    else SubsetStream(file, toc, list, b, n - 1) +
         if list[n - 1].batch == b then Contents(file, toc, list[n - 1].oid) else []
  }

  lemma {:induction false} SubsetStreamAt(file: Bytes, toc: Entries, list: seq<Item>, b: nat, n: nat, i: nat)
    requires i < n <= |list| && EntriesFit(file, toc, list, b)
    ensures |SubsetStream(file, toc, list, b, n)| == Offset(toc, list, b, n)
    ensures list[i].batch == b ==>
              && Offset(toc, list, b, i) + Length(toc, list[i].oid) <= Offset(toc, list, b, n)
              && Slice(SubsetStream(file, toc, list, b, n), Offset(toc, list, b, i), Length(toc, list[i].oid))
                 == Contents(file, toc, list[i].oid)
    decreases n
  {
    var before := SubsetStream(file, toc, list, b, n - 1);
    if n > 1 {
      SubsetStreamAt(file, toc, list, b, n - 1, if i < n - 1 then i else 0);
    }
    if list[i].batch == b {
      var more := if list[n - 1].batch == b then Contents(file, toc, list[n - 1].oid) else [];
      SliceConcat(before, more, Offset(toc, list, b, i), Length(toc, list[i].oid));
    }
  }

  lemma SliceConcat(s: Bytes, more: Bytes, position: nat, len: nat)
    ensures position + len <= |s| ==> Slice(s + more, position, len) == Slice(s, position, len)
    ensures position == |s| && len == |more| ==> Slice(s + more, position, len) == more
  {
  }

  /** len bytes from some position on, or as many as there are. */
  function Slice(s: Bytes, position: nat, len: nat): Bytes {
    if position + len <= |s| then s[position..position + len] else if position <= |s| then s[position..] else []
  }

  // ----- What the helper is given -----

  /**
   * The arguments and the list of a helper, what happens at each item, and the data of the contents it reads.
   * subsets are the contents whose data comes from a plugin that is asked for the listed ranges only.
   */
  datatype Job = Job(
    agent: Agent,
    list: seq<Item>,
    outcomes: seq<Outcome>,
    tocs: map<nat, Entries>,
    files: map<nat, Bytes>,
    subsets: set<nat>)

  function TocFor(job: Job, b: nat): Entries {
    var c := ContentOf(job.agent, b);
    if c in job.tocs then job.tocs[c] else map[]
  }

  function FileFor(job: Job, b: nat): Bytes {
    var c := ContentOf(job.agent, b);
    if c in job.files then job.files[c] else []
  }

  predicate FromSubset(job: Job, b: nat) {
    ContentOf(job.agent, b) in job.subsets
  }

  /** The bytes of table oid on the content of a batch. */
  function DataLen(job: Job, b: nat, oid: nat): nat {
    Length(TocFor(job, b), oid)
  }

  function LastByte(lastByte: map<nat, nat>, content: nat): nat {
    if content in lastByte then lastByte[content] else 0
  }

  ghost predicate Fit(job: Job, b: nat) {
    EntriesFit(FileFor(job, b), TocFor(job, b), job.list, b)
  }

  ghost predicate ValidJob(job: Job) {
    && ValidAgent(job.agent)
    && |job.list| == |job.outcomes|
    && WellFormed(job.list, job.agent.batches)
    && forall b | HasData(job.agent, b) :: Fit(job, b)
  }

  ghost function StartOf(job: Job, b: nat, n: nat): nat
    requires n <= |job.list|
  {
    Offset(TocFor(job, b), job.list, b, n)
  }

  /** What the reader of a batch gets to read. */
  ghost function StreamOf(job: Job, b: nat): Bytes
    requires Fit(job, b)
  {
    if FromSubset(job, b) then SubsetStream(FileFor(job, b), TocFor(job, b), job.list, b, |job.list|)
    else FileFor(job, b)
  }

  /** There is a reader of its own for every content, which gives the file or the subset asked for. */
  ghost predicate Readers(job: Job, readers: map<nat, DataReader>)
    requires ValidJob(job)
  {
    && OwnReaders(job.agent, readers)
    && forall b | HasData(job.agent, b) :: ReaderFor(job, b, readers[ContentOf(job.agent, b)])
  }

  ghost predicate OwnReaders(a: Agent, readers: map<nat, DataReader>) {
    && (forall b | HasData(a, b) :: ContentOf(a, b) in readers)
    && (forall c | c in readers :: !(a.resize && c >= a.orig))
    && forall b, c | HasData(a, b) && HasData(a, c) && b < c :: readers[ContentOf(a, b)] != readers[ContentOf(a, c)]
  }

  ghost predicate ReaderFor(job: Job, b: nat, reader: DataReader)
    requires Fit(job, b)
  {
    reader.stream == StreamOf(job, b) && (reader.kind == Subset <==> FromSubset(job, b))
  }

  /** The data a table has on the content of a batch; nothing where the batch stands for no content. */
  ghost function DataFor(job: Job, x: Item): Bytes {
    if !HasData(job.agent, x.batch) then []
    else Slice(FileFor(job, x.batch), Entry(TocFor(job, x.batch), x.oid).first, DataLen(job, x.batch, x.oid))
  }

  // ----- Skipping -----

  /** The end of the run of items of a table that starts at item i. */
  ghost function RunEnd(list: seq<Item>, i: nat, oid: nat): (end: nat)
    requires i <= |list|
    ensures i <= end <= |list|
    decreases |list| - i
  {
    if i < |list| && list[i].oid == oid then RunEnd(list, i + 1, oid) else i
  }

  /** The item up to which data has been consumed when the helper is at item i. */
  ghost function Reach(list: seq<Item>, i: nat, skipOid: Option<nat>): nat
    requires i <= |list|
  {
    if skipOid.Some? then RunEnd(list, i, skipOid.value) else i
  }

  ghost predicate ListedFrom(list: seq<Item>, i: nat, x: Item) {
    exists m :: i <= m < |list| && list[m] == x
  }

  lemma {:induction false} RunOffset(toc: Entries, list: seq<Item>, batches: nat, b: nat, i: nat)
    requires WellFormed(list, batches) && i < |list|
    ensures Offset(toc, list, b, RunEnd(list, i, list[i].oid)) ==
            Offset(toc, list, b, i) +
            if ListedFrom(list, i, Item(list[i].oid, b)) then Length(toc, list[i].oid) else 0
    decreases |list| - i
  {
    var oid := list[i].oid;
    var x := Item(oid, b);
    assert Offset(toc, list, b, i + 1) == Offset(toc, list, b, i) + if list[i] == x then Length(toc, oid) else 0;
    assert ListedFrom(list, i, x) <==> list[i] == x || ListedFrom(list, i + 1, x);
    if i + 1 < |list| && list[i + 1].oid == oid {
      RunOffset(toc, list, batches, b, i + 1);
      if list[i] == x && ListedFrom(list, i + 1, x) {
        assert false;
      }
    } else {
      assert RunEnd(list, i, oid) == i + 1;
      assert !ListedFrom(list, i + 1, x);
    }
  }

  lemma ServeReach(list: seq<Item>, outcomes: seq<Outcome>, batches: nat, n: nat, skipOid: Option<nat>)
    requires n < |list| == |outcomes| && WellFormed(list, batches) && SkipOidIs(list, outcomes, n, skipOid)
    requires Some(list[n].oid) != skipOid
    ensures Reach(list, n, skipOid) == n && Reach(list, n + 1, skipOid) == n + 1
  {
  }

  /** The skip at item k drops bytes from the stream of batch b that it does not contain. */
  ghost predicate Upsets(job: Job, b: nat, k: nat)
    requires k < |job.list| == |job.outcomes|
  {
    && SkipsAt(job.list, job.outcomes, k)
    && job.list[k].batch <= b
    && !ListedFrom(job.list, k, Item(job.list[k].oid, b))
    && DataLen(job, b, job.list[k].oid) > 0
  }

  /** How many bytes too many the skips among the first n items drop from the stream of a batch. */
  ghost function Shift(job: Job, b: nat, n: nat): nat
    requires n <= |job.list| == |job.outcomes|
  {
    if n == 0 then 0
    else Shift(job, b, n - 1) + if Upsets(job, b, n - 1) then DataLen(job, b, job.list[n - 1].oid) else 0
  }

  /** Nothing is dropped by mistake exactly if no skip upsets the stream. */
  lemma {:induction false} UnshiftedIff(job: Job, b: nat, n: nat)
    requires n <= |job.list| == |job.outcomes|
    ensures Shift(job, b, n) == 0 <==> forall k | 0 <= k < n :: !Upsets(job, b, k)
  {
    if n > 0 {
      UnshiftedIff(job, b, n - 1);
    }
  }

  // ----- Where the readers are -----

  /** The position of a subset reader after n items that have consumed the data of the items below end. */
  ghost function At(job: Job, b: nat, n: nat, end: nat): nat
    requires n <= |job.list| == |job.outcomes| && end <= |job.list|
  {
    Least(StartOf(job, b, end) + Shift(job, b, n), StartOf(job, b, |job.list|))
  }

  /** What is left of the stream of a subset reader at item n. */
  ghost function Rest(job: Job, b: nat, n: nat): nat
    requires n <= |job.list| == |job.outcomes|
  {
    StartOf(job, b, |job.list|) - At(job, b, n, n)
  }

  /** Discarding data of batch b fails at item j. */
  ghost predicate FailsAt(job: Job, b: nat, j: nat)
    requires j < |job.list| == |job.outcomes|
  {
    var oid := job.list[j].oid;
    && !Skipped(job.list, job.outcomes, oid, j)
    && match job.outcomes[j]
       case Copied => false
       case Broken(_, _) => job.list[j].batch == b && LosesRest(job.outcomes[j], DataLen(job, b, oid), Rest(job, b, j))
       case SkipFile(fails) => job.list[j].batch <= b && (b in fails || DataLen(job, b, oid) > Rest(job, b, j))
  }

  /** The stream of a batch has been lost at one of the first n items. */
  ghost predicate Lost(job: Job, b: nat, n: nat)
    requires n <= |job.list| == |job.outcomes|
  {
    exists j :: 0 <= j < n && FailsAt(job, b, j)
  }

  lemma LostNext(job: Job, b: nat, n: nat)
    requires n < |job.list| == |job.outcomes|
    ensures Lost(job, b, n + 1) <==> Lost(job, b, n) || FailsAt(job, b, n)
  {
  }

  /** The position of a reader after n items, given the last byte recorded for its content. */
  ghost predicate InPlace(job: Job, b: nat, n: nat, end: nat, r: ReaderState, last: nat)
    requires n <= |job.list| == |job.outcomes| && end <= |job.list|
  {
    if r.kind == Subset then
      r.discardErr == Lost(job, b, n) && (!r.discardErr ==> r.position == At(job, b, n, end))
    else
      r.position == last
  }

  ghost predicate AllInPlace(job: Job, n: nat, end: nat, readers: map<nat, DataReader>, lastByte: map<nat, nat>)
    requires n <= |job.list| == |job.outcomes| && end <= |job.list| && OwnReaders(job.agent, readers)
    reads readers.Values
  {
    forall b | HasData(job.agent, b) ::
      InPlace(job, b, n, end, readers[ContentOf(job.agent, b)].State(), LastByte(lastByte, ContentOf(job.agent, b)))
  }

  /** No table still to come starts before the last byte recorded for its content. */
  ghost predicate NoneBehind(job: Job, lastByte: map<nat, nat>, n: nat) {
    forall b, j | HasData(job.agent, b) && n <= j < |job.list| && job.list[j].batch == b ::
      LastByte(lastByte, ContentOf(job.agent, b)) <= Entry(TocFor(job, b), job.list[j].oid).first
  }

  // ----- What the pipes get -----

  /**
   * What the helper does for a pipe: nothing if the table is skipped; otherwise it writes some bytes, and the copy is
   * complete or fails. The bytes are flushed when the pipe is closed, also after a failed copy; only if the pipe is
   * broken they are an upper bound, as its reader then gets the first few of them.
   */
  datatype Delivery = Untouched | Written(bytes: Bytes, complete: bool)

  predicate Succeeds(d: Delivery) {
    d.Written? && d.complete
  }

  /** The copy of item i is made, and a subset stream that is not lost has enough bytes left for it. */
  ghost predicate Delivered(job: Job, i: nat)
    requires i < |job.list| == |job.outcomes|
  {
    var b, oid := job.list[i].batch, job.list[i].oid;
    && !Skipped(job.list, job.outcomes, oid, i + 1)
    && (HasData(job.agent, b) ==>
          && !Breaks(job.outcomes[i], DataLen(job, b, oid))
          && (FromSubset(job, b) ==> !Lost(job, b, i) && DataLen(job, b, oid) <= Rest(job, b, i)))
  }

  /** The bytes written to the pipe of an item that is not skipped: those its reader is at, as far as the copy gets. */
  ghost function Given(job: Job, i: nat): Bytes
    requires ValidJob(job) && i < |job.list|
  {
    var b, oid := job.list[i].batch, job.list[i].oid;
    if !HasData(job.agent, b) then []
    else
      var position := if FromSubset(job, b) then At(job, b, i, i) else Entry(TocFor(job, b), oid).first;
      if FromSubset(job, b) && Lost(job, b, i) then []
      else Slice(StreamOf(job, b), position, Limit(job.outcomes[i], DataLen(job, b, oid)))
  }

  ghost function Sent(job: Job, i: nat): Delivery
    requires ValidJob(job) && i < |job.list|
  {
    if Skipped(job.list, job.outcomes, job.list[i].oid, i + 1) then Untouched
    else Written(Given(job, i), Delivered(job, i))
  }

  /** What was sent, item by item, is what the pipes are to get. */
  ghost predicate SentRight(job: Job, sent: seq<Delivery>)
    requires ValidJob(job) && |sent| <= |job.list|
  {
    forall i | 0 <= i < |sent| :: sent[i] == Sent(job, i)
  }

  /** The loop was left at an error that it may not survive. */
  predicate EndsEarly(job: Job, sent: seq<Delivery>) {
    !job.agent.onErrorContinue && sent != [] && !Succeeds(sent[|sent| - 1])
  }

  lemma SentOne(job: Job, sent: seq<Delivery>)
    requires ValidJob(job) && |sent| < |job.list| && SentRight(job, sent)
    ensures SentRight(job, sent + [Sent(job, |sent|)])
  {
  }

  /**
   * An item whose stream no skip has upset, and is not lost, gets the data of its table as far as the copy gets, and
   * there is enough of it.
   */
  lemma UnshiftedGetsItsData(job: Job, i: nat)
    requires ValidJob(job) && i < |job.list|
    requires FromSubset(job, job.list[i].batch) ==> Shift(job, job.list[i].batch, i) == 0
    ensures !(FromSubset(job, job.list[i].batch) && Lost(job, job.list[i].batch, i)) ==>
            Given(job, i) == Slice(DataFor(job, job.list[i]), 0,
                                   Limit(job.outcomes[i], DataLen(job, job.list[i].batch, job.list[i].oid)))
    ensures Delivered(job, i) ==> Given(job, i) == DataFor(job, job.list[i])
    ensures HasData(job.agent, job.list[i].batch) && FromSubset(job, job.list[i].batch) ==>
              DataLen(job, job.list[i].batch, job.list[i].oid) <= Rest(job, job.list[i].batch, i)
  {
    var b, oid := job.list[i].batch, job.list[i].oid;
    if HasData(job.agent, b) {
      assert Fit(job, b);
      var entry, len := Entry(TocFor(job, b), oid), DataLen(job, b, oid);
      assert DataFor(job, job.list[i]) == Contents(FileFor(job, b), TocFor(job, b), oid);
      if FromSubset(job, b) {
        SubsetStreamAt(FileFor(job, b), TocFor(job, b), job.list, b, |job.list|, i);
        SliceOfSlice(StreamOf(job, b), StartOf(job, b, i), len, 0, Limit(job.outcomes[i], len));
      } else {
        SliceOfSlice(FileFor(job, b), entry.first, len, 0, Limit(job.outcomes[i], len));
      }
    }
  }

  lemma SliceOfSlice(s: Bytes, position: nat, len: nat, skip: nat, limit: nat)
    requires position + len <= |s| && skip <= len
    requires skip + limit <= len || position + len == |s|
    ensures Slice(Slice(s, position, len), skip, limit) == Slice(s, position + skip, limit)
  {
    var whole := s[position..position + len];
    if skip + limit <= len {
      var left, right := whole[skip..skip + limit], s[position + skip..position + skip + limit];
      forall k | 0 <= k < limit
        ensures left[k] == right[k]
      {
        assert left[k] == whole[skip + k] == s[position + (skip + k)];
      }
      assert left == right;
    } else {
      assert whole == s[position..];
      assert whole[skip..] == s[position + skip..];
    }
  }

  /** The data of an item is found in its subset stream at the item's start. */
  lemma DataInStream(job: Job, i: nat)
    requires ValidJob(job) && i < |job.list|
    requires HasData(job.agent, job.list[i].batch) && FromSubset(job, job.list[i].batch)
    ensures var b, len := job.list[i].batch, DataLen(job, job.list[i].batch, job.list[i].oid);
      && StartOf(job, b, i) + len <= StartOf(job, b, |job.list|)
      && DataFor(job, job.list[i]) == Slice(StreamOf(job, b), StartOf(job, b, i), len)
  {
    var b := job.list[i].batch;
    assert Fit(job, b);
    SubsetStreamAt(FileFor(job, b), TocFor(job, b), job.list, b, |job.list|, i);
  }

  /** Where the last bytes of the stream are those of item i, the reader has lost as many of them as it is ahead. */
  lemma LastData(job: Job, i: nat)
    requires ValidJob(job) && i < |job.list|
    requires HasData(job.agent, job.list[i].batch) && FromSubset(job, job.list[i].batch)
    requires StartOf(job, job.list[i].batch, i + 1) == StartOf(job, job.list[i].batch, |job.list|)
    ensures var b, len := job.list[i].batch, DataLen(job, job.list[i].batch, job.list[i].oid);
      && Rest(job, b, i) == len - Least(Shift(job, b, i), len)
      && Slice(StreamOf(job, b), At(job, b, i, i), Limit(job.outcomes[i], len)) ==
         Slice(DataFor(job, job.list[i]), Least(Shift(job, b, i), len), Limit(job.outcomes[i], len))
  {
    var b, oid := job.list[i].batch, job.list[i].oid;
    assert Fit(job, b);
    var len, start, shift := DataLen(job, b, oid), StartOf(job, b, i), Shift(job, b, i);
    StreamSize(job, b);
    DataInStream(job, i);
    assert start + len == StartOf(job, b, i + 1);
    assert At(job, b, i, i) == start + Least(shift, len);
    SliceOfSlice(StreamOf(job, b), start, len, Least(shift, len), Limit(job.outcomes[i], len));
  }

  /** Where the reader of an item's content stands when it is served. */
  ghost function PlaceOf(job: Job, i: nat): nat
    requires i < |job.list| == |job.outcomes|
  {
    var b := job.list[i].batch;
    if FromSubset(job, b) then At(job, b, i, i) else Entry(TocFor(job, b), job.list[i].oid).first
  }

  /** A pipe that breaks after k bytes has been written the k bytes its reader is at, and its copy is incomplete. */
  lemma BrokenWritesFirst(job: Job, i: nat, k: nat, clean: bool)
    requires ValidJob(job) && i < |job.list| && HasData(job.agent, job.list[i].batch)
    requires job.outcomes[i] == Broken(k, clean) && k < DataLen(job, job.list[i].batch, job.list[i].oid)
    requires !Skipped(job.list, job.outcomes, job.list[i].oid, i + 1)
    requires FromSubset(job, job.list[i].batch) ==>
               !Lost(job, job.list[i].batch, i) && k <= Rest(job, job.list[i].batch, i)
    ensures var stream := StreamOf(job, job.list[i].batch);
      && PlaceOf(job, i) + k <= |stream|
      && Sent(job, i) == Written(stream[PlaceOf(job, i)..PlaceOf(job, i) + k], false)
  {
    var b := job.list[i].batch;
    assert Fit(job, b);
    if FromSubset(job, b) {
      StreamSize(job, b);
    }
  }

  /** A pipe that does not break before its last byte is written all of its bytes, if there are that many left. */
  lemma UnbrokenWritesAll(job: Job, i: nat)
    requires ValidJob(job) && i < |job.list| && HasData(job.agent, job.list[i].batch)
    requires match job.outcomes[i]
             case Copied => true
             case Broken(k, _) => k >= DataLen(job, job.list[i].batch, job.list[i].oid)
             case SkipFile(_) => false
    requires !Skipped(job.list, job.outcomes, job.list[i].oid, i + 1)
    requires FromSubset(job, job.list[i].batch) ==>
               && !Lost(job, job.list[i].batch, i)
               && DataLen(job, job.list[i].batch, job.list[i].oid) <= Rest(job, job.list[i].batch, i)
    ensures var stream, len := StreamOf(job, job.list[i].batch), DataLen(job, job.list[i].batch, job.list[i].oid);
      && PlaceOf(job, i) + len <= |stream|
      && Sent(job, i) == Written(stream[PlaceOf(job, i)..PlaceOf(job, i) + len], true)
  {
    var b := job.list[i].batch;
    assert Fit(job, b);
    if FromSubset(job, b) {
      StreamSize(job, b);
    }
  }

  /** An item with bytes finds its reader at its own data if and only if no skip before it has upset the stream. */
  lemma AtOwnDataIff(job: Job, i: nat)
    requires ValidJob(job) && i < |job.list| && HasData(job.agent, job.list[i].batch)
    requires DataLen(job, job.list[i].batch, job.list[i].oid) > 0
    ensures At(job, job.list[i].batch, i, i) == StartOf(job, job.list[i].batch, i) <==>
              forall k | 0 <= k < i :: !Upsets(job, job.list[i].batch, k)
  {
    var b := job.list[i].batch;
    assert Fit(job, b);
    UnshiftedIff(job, b, i);
    SubsetStreamAt(FileFor(job, b), TocFor(job, b), job.list, b, |job.list|, i);
  }

  /**
   * From an upset stream that is not lost, the last table of the batch that has bytes gets its data without as many
   * of the first bytes as were dropped by mistake, and its copy fails.
   */
  lemma UpsetStreamRunsOut(job: Job, i: nat)
    requires ValidJob(job) && i < |job.list|
    requires HasData(job.agent, job.list[i].batch) && FromSubset(job, job.list[i].batch)
    requires exists k :: 0 <= k < i && Upsets(job, job.list[i].batch, k)
    requires DataLen(job, job.list[i].batch, job.list[i].oid) > 0
    requires StartOf(job, job.list[i].batch, i + 1) == StartOf(job, job.list[i].batch, |job.list|)
    ensures Shift(job, job.list[i].batch, i) > 0 && !Delivered(job, i)
    ensures !Lost(job, job.list[i].batch, i) ==>
              var len := DataLen(job, job.list[i].batch, job.list[i].oid);
              Given(job, i) == Slice(DataFor(job, job.list[i]), Least(Shift(job, job.list[i].batch, i), len),
                                     Limit(job.outcomes[i], len))
    ensures Lost(job, job.list[i].batch, i) ==> Given(job, i) == []
  {
    UnshiftedIff(job, job.list[i].batch, i);
    LastData(job, i);
  }

  // ----- Single steps -----

  function Room(r: ReaderState): nat {
    if r.position <= |r.stream| then |r.stream| - r.position else 0
  }

  /** The data of a skipped table has been dropped from the reader of a batch, if that one reads a subset. */
  predicate Discarded(was: ReaderState, now: ReaderState, len: nat, due: bool, fails: bool) {
    && now.kind == was.kind && now.stream == was.stream
    && if due && was.kind == Subset
       then
         && now.discardErr == (was.discardErr || fails || len > Room(was))
         && (!now.discardErr ==> now.position == was.position + len)
       else now == was
  }

  /**
   * A skipped table's bytes are dropped from a subset reader in place, and then it is in place for the item after
   * the table's, if and only if the table is listed for the reader's batch or has no bytes there.
   */
  lemma SkipStaysInPlace(job: Job, b: nat, i: nat, was: ReaderState, now: ReaderState)
    requires ValidJob(job) && i < |job.list| && HasData(job.agent, b) && job.list[i].batch <= b
    requires was.kind == Subset && FromSubset(job, b) && was.stream == StreamOf(job, b)
    requires !was.discardErr && was.position == StartOf(job, b, i)
    requires Discarded(was, now, DataLen(job, b, job.list[i].oid), true, false)
    ensures !now.discardErr && now.position == StartOf(job, b, RunEnd(job.list, i, job.list[i].oid)) <==>
              ListedFrom(job.list, i, Item(job.list[i].oid, b)) || DataLen(job, b, job.list[i].oid) == 0
  {
    assert Fit(job, b);
    var end := RunEnd(job.list, i, job.list[i].oid);
    RunOffset(TocFor(job, b), job.list, job.agent.batches, b, i);
    OffsetGrows(TocFor(job, b), job.list, b, end, |job.list|);
    SubsetStreamAt(FileFor(job, b), TocFor(job, b), job.list, b, |job.list|, i);
  }

  /** What serving one item does to its reader, and what it gives its pipe. */
  predicate Served(was: ReaderState, now: ReaderState, entry: Range, outcome: Outcome, onErrorContinue: bool,
                   served: Delivery, last: nat)
  {
    && entry.first <= entry.last && last <= entry.last && now.kind == was.kind && now.stream == was.stream
    && var len := entry.last - entry.first;
       if was.kind != Subset
       then
         && now.position == last
         && entry.last <= |was.stream|
         && served == Written(Slice(was.stream, entry.first, Limit(outcome, len)), !Breaks(outcome, len))
       else
         was.discardErr || was.position <= |was.stream| ==>
           ServedSubset(was, now, len, outcome, onErrorContinue, served)
  }

  predicate ServedSubset(was: ReaderState, now: ReaderState, len: nat, outcome: Outcome, onErrorContinue: bool,
                         served: Delivery)
  {
    && served == Written(if was.discardErr then [] else Slice(was.stream, was.position, Limit(outcome, len)),
                         !was.discardErr && len <= Room(was) && !Breaks(outcome, len))
    && (Succeeds(served) || onErrorContinue ==>
          && now.discardErr == (was.discardErr || LosesRest(outcome, len, Room(was)))
          && (!now.discardErr ==> now.position == was.position + Least(len, Room(was))))
  }

  lemma StreamSize(job: Job, b: nat)
    requires Fit(job, b) && FromSubset(job, b)
    ensures |StreamOf(job, b)| == StartOf(job, b, |job.list|)
  {
    if job.list != [] {
      SubsetStreamAt(FileFor(job, b), TocFor(job, b), job.list, b, |job.list|, 0);
    }
  }

  lemma ServeMoves(job: Job, b: nat, i: nat)
    requires i < |job.list| == |job.outcomes| && Fit(job, b) && !SkipsAt(job.list, job.outcomes, i)
    ensures Shift(job, b, i + 1) == Shift(job, b, i)
    ensures StartOf(job, b, i + 1) ==
            StartOf(job, b, i) + if job.list[i].batch == b then DataLen(job, b, job.list[i].oid) else 0
    ensures StartOf(job, b, i + 1) <= StartOf(job, b, |job.list|)
  {
    OffsetGrows(TocFor(job, b), job.list, b, i + 1, |job.list|);
  }

  /** Whether it upsets the stream or not, a skip moves on by the bytes of its table. */
  lemma SkipMoves(job: Job, b: nat, i: nat)
    requires i < |job.list| == |job.outcomes| && WellFormed(job.list, job.agent.batches)
    requires SkipsAt(job.list, job.outcomes, i)
    ensures StartOf(job, b, RunEnd(job.list, i, job.list[i].oid)) + Shift(job, b, i + 1) ==
            StartOf(job, b, i) + Shift(job, b, i) +
              if job.list[i].batch <= b then DataLen(job, b, job.list[i].oid) else 0
  {
    RunOffset(TocFor(job, b), job.list, job.agent.batches, b, i);
    assert b < job.list[i].batch ==> !ListedFrom(job.list, i, Item(job.list[i].oid, b));
  }

  lemma ServeKeepsInPlace(job: Job, b: nat, i: nat, was: ReaderState, now: ReaderState, last: nat, last': nat,
                          served: Delivery)
    requires i < |job.list| == |job.outcomes| && Fit(job, b)
    requires was.stream == StreamOf(job, b) && (was.kind == Subset <==> FromSubset(job, b))
    requires InPlace(job, b, i, i, was, last)
    requires !Skipped(job.list, job.outcomes, job.list[i].oid, i) && !job.outcomes[i].SkipFile?
    requires Succeeds(served) || job.agent.onErrorContinue
    requires if b == job.list[i].batch
             then Served(was, now, Entry(TocFor(job, b), job.list[i].oid), job.outcomes[i],
                         job.agent.onErrorContinue, served, last')
             else now == was && last' == last
    ensures InPlace(job, b, i + 1, i + 1, now, last')
  {
    if was.kind == Subset {
      LostNext(job, b, i);
      StreamSize(job, b);
      ServeMoves(job, b, i);
    }
  }

  /** What is served is what the pipe is said to get. */
  lemma ServesGiven(job: Job, i: nat, was: ReaderState, now: ReaderState, last: nat, last': nat, served: Delivery)
    requires ValidJob(job) && i < |job.list| && HasData(job.agent, job.list[i].batch)
    requires was.stream == StreamOf(job, job.list[i].batch)
    requires was.kind == Subset <==> FromSubset(job, job.list[i].batch)
    requires InPlace(job, job.list[i].batch, i, i, was, last)
    requires !Skipped(job.list, job.outcomes, job.list[i].oid, i) && !job.outcomes[i].SkipFile?
    requires Served(was, now, Entry(TocFor(job, job.list[i].batch), job.list[i].oid), job.outcomes[i],
                    job.agent.onErrorContinue, served, last')
    ensures served == Sent(job, i)
  {
    var b := job.list[i].batch;
    SkippedNext(job.list, job.outcomes, job.list[i].oid, i);
    if was.kind == Subset {
      StreamSize(job, b);
    }
  }

  lemma SkipKeepsInPlace(job: Job, b: nat, i: nat, was: ReaderState, now: ReaderState, last: nat)
    requires i < |job.list| == |job.outcomes| && WellFormed(job.list, job.agent.batches) && Fit(job, b)
    requires was.stream == StreamOf(job, b) && (was.kind == Subset <==> FromSubset(job, b))
    requires InPlace(job, b, i, i, was, last) && SkipsAt(job.list, job.outcomes, i)
    requires Discarded(was, now, DataLen(job, b, job.list[i].oid), job.list[i].batch <= b,
                       b in job.outcomes[i].discardFails)
    ensures InPlace(job, b, i + 1, RunEnd(job.list, i, job.list[i].oid), now, last)
  {
    if was.kind == Subset {
      LostNext(job, b, i);
      StreamSize(job, b);
      SkipMoves(job, b, i);
    }
  }

  // ----- The main loop -----

  /** Discarding the data of a skipped table for its remaining batches. */
  method DiscardRemaining(job: Job, x: Item, fails: set<nat>, readers: map<nat, DataReader>)
    requires ValidAgent(job.agent) && x.batch < job.agent.batches && OwnReaders(job.agent, readers)
    modifies readers.Values
    ensures forall b | HasData(job.agent, b) ::
              Discarded(old(readers[ContentOf(job.agent, b)].State()), readers[ContentOf(job.agent, b)].State(),
                        DataLen(job, b, x.oid), x.batch <= b, b in fails)
  {
    var a := job.agent;
    for batchToDiscard := x.batch to a.batches
      invariant forall b | HasData(a, b) && b < batchToDiscard ::
                  Discarded(old(readers[ContentOf(a, b)].State()), readers[ContentOf(a, b)].State(),
                            DataLen(job, b, x.oid), x.batch <= b, b in fails)
      invariant forall b | HasData(a, b) && b >= batchToDiscard ::
                  readers[ContentOf(a, b)].State() == old(readers[ContentOf(a, b)].State())
    {
      var contentToDiscard := ContentOf(a, batchToDiscard);
      if contentToDiscard in readers && readers[contentToDiscard].kind == Subset {
        assert HasData(a, batchToDiscard);
        var bytesToDiscard := DataLen(job, batchToDiscard, x.oid);
        var _, _ := readers[contentToDiscard].DiscardData(bytesToDiscard, batchToDiscard !in fails);
      }
    }
  }

  /** The reader of an item's content can be moved to the item's data. */
  predicate CanPosition(r: ReaderState, entry: Range, last: nat) {
    last <= entry.first <= entry.last && (r.kind != Subset ==> r.position == last && entry.last <= |r.stream|)
  }

  /** Moving a reader from the last byte to an entry and copying the entry to the pipe. */
  method CopyEntry(reader: DataReader, entry: Range, outcome: Outcome, onErrorContinue: bool, lastByte: nat)
    returns (served: Delivery, last: nat)
    requires CanPosition(reader.State(), entry, lastByte)
    modifies reader
    ensures Served(old(reader.State()), reader.State(), entry, outcome, onErrorContinue, served, last)
  {
    var ok := reader.PositionReader(entry.first - lastByte);
    assert ok;
    var copied, bytesRead;
    copied, bytesRead, ok := reader.CopyData(entry.last - entry.first, outcome, onErrorContinue);
    served := Written(copied, ok);
    last := if ok then entry.last else entry.first + bytesRead;
  }

  /** Copying the data of one item to its pipe; a batch without data gets nothing. */
  method ServeItem(job: Job, x: Item, outcome: Outcome, readers: map<nat, DataReader>, lastByte: map<nat, nat>)
    returns (served: Delivery, lastByte': map<nat, nat>)
    requires x.batch < job.agent.batches
    requires HasData(job.agent, x.batch) ==>
               && ContentOf(job.agent, x.batch) in readers
               && CanPosition(readers[ContentOf(job.agent, x.batch)].State(), Entry(TocFor(job, x.batch), x.oid),
                              LastByte(lastByte, ContentOf(job.agent, x.batch)))
    modifies if HasData(job.agent, x.batch) && ContentOf(job.agent, x.batch) in readers
             then {readers[ContentOf(job.agent, x.batch)]}
             else {}
    ensures forall c | c != ContentOf(job.agent, x.batch) :: LastByte(lastByte', c) == LastByte(lastByte, c)
    ensures !HasData(job.agent, x.batch) ==> served == Written([], true)
    ensures HasData(job.agent, x.batch) ==>
              Served(old(readers[ContentOf(job.agent, x.batch)].State()),
                     readers[ContentOf(job.agent, x.batch)].State(), Entry(TocFor(job, x.batch), x.oid), outcome,
                     job.agent.onErrorContinue, served, LastByte(lastByte', ContentOf(job.agent, x.batch)))
  {
    var content, entry := ContentOf(job.agent, x.batch), Entry(TocFor(job, x.batch), x.oid);
    var last := entry.last;
    if !(job.agent.resize && content >= job.agent.orig) {
      served, last := CopyEntry(readers[content], entry, outcome, job.agent.onErrorContinue,
                                LastByte(lastByte, content));
    } else {
      served := Written([], true);
    }
    lastByte' := lastByte[content := last];
  }

  /** A skip file was found at item i: the data of its table is discarded for the batches to come. */
  method SkipTable(job: Job, i: nat, readers: map<nat, DataReader>, ghost lastByte: map<nat, nat>)
    requires ValidJob(job) && i < |job.list| && Readers(job, readers)
    requires SkipsAt(job.list, job.outcomes, i)
    requires AllInPlace(job, i, i, readers, lastByte)
    modifies readers.Values
    ensures AllInPlace(job, i + 1, RunEnd(job.list, i, job.list[i].oid), readers, lastByte)
  {
    DiscardRemaining(job, job.list[i], job.outcomes[i].discardFails, readers);
    forall b | HasData(job.agent, b)
      ensures InPlace(job, b, i + 1, RunEnd(job.list, i, job.list[i].oid),
                      readers[ContentOf(job.agent, b)].State(), LastByte(lastByte, ContentOf(job.agent, b)))
    {
      var c := ContentOf(job.agent, b);
      assert ReaderFor(job, b, readers[c]);
      SkipKeepsInPlace(job, b, i, old(readers[c].State()), readers[c].State(), LastByte(lastByte, c));
    }
  }

  /** Item i is served, and every reader is in place for the item after it. */
  method ServeNext(job: Job, i: nat, readers: map<nat, DataReader>, lastByte: map<nat, nat>)
    returns (served: Delivery, lastByte': map<nat, nat>)
    requires ValidJob(job) && i < |job.list| && Readers(job, readers)
    requires !Skipped(job.list, job.outcomes, job.list[i].oid, i) && !job.outcomes[i].SkipFile?
    requires NoneBehind(job, lastByte, i) && AllInPlace(job, i, i, readers, lastByte)
    modifies readers.Values
    ensures served == Sent(job, i)
    ensures NoneBehind(job, lastByte', i + 1)
    ensures Succeeds(served) || job.agent.onErrorContinue ==> AllInPlace(job, i + 1, i + 1, readers, lastByte')
  {
    var x := job.list[i];
    var own := ContentOf(job.agent, x.batch);
    assert HasData(job.agent, x.batch) ==> Fit(job, x.batch) && ReaderFor(job, x.batch, readers[own]);
    served, lastByte' := ServeItem(job, x, job.outcomes[i], readers, lastByte);
    if HasData(job.agent, x.batch) {
      ServesGiven(job, i, old(readers[own].State()), readers[own].State(), LastByte(lastByte, own),
                  LastByte(lastByte', own), served);
    } else {
      SkippedNext(job.list, job.outcomes, x.oid, i);
    }
    StaysAhead(job, lastByte, lastByte', i);
    if Succeeds(served) || job.agent.onErrorContinue {
      forall b | HasData(job.agent, b)
        ensures InPlace(job, b, i + 1, i + 1, readers[ContentOf(job.agent, b)].State(),
                        LastByte(lastByte', ContentOf(job.agent, b)))
      {
        var c := ContentOf(job.agent, b);
        assert ReaderFor(job, b, readers[c]);
        ServeKeepsInPlace(job, b, i, old(readers[c].State()), readers[c].State(), LastByte(lastByte, c),
                          LastByte(lastByte', c), served);
      }
    }
  }

  /** Recording the end of an item's range, or less, leaves no later table of its content behind. */
  lemma StaysAhead(job: Job, lastByte: map<nat, nat>, lastByte': map<nat, nat>, i: nat)
    requires ValidJob(job) && i < |job.list| && NoneBehind(job, lastByte, i)
    requires forall c | c != ContentOf(job.agent, job.list[i].batch) :: LastByte(lastByte', c) == LastByte(lastByte, c)
    requires HasData(job.agent, job.list[i].batch) ==>
               LastByte(lastByte', ContentOf(job.agent, job.list[i].batch)) <=
               Entry(TocFor(job, job.list[i].batch), job.list[i].oid).last
    ensures NoneBehind(job, lastByte', i + 1)
  {
    forall b, j | HasData(job.agent, b) && i + 1 <= j < |job.list| && job.list[j].batch == b
      ensures LastByte(lastByte', ContentOf(job.agent, b)) <= Entry(TocFor(job, b), job.list[j].oid).first
    {
      if b == job.list[i].batch {
        assert Fit(job, b);
      } else {
        OwnContent(job.agent, b, job.list[i].batch);
      }
    }
  }

  /** Removing the pipes of up to queue batches of a skipped table; removing one that does not exist is harmless. */
  method DeletePipes(x: Item, queue: nat, batches: nat, pipes: set<Item>) returns (left: set<Item>)
    ensures left == pipes - Deleted(x, queue, batches)
  {
    left := pipes;
    for idx := 0 to queue
      invariant left == pipes - Deleted(x, idx, batches)
    {
      var batchToDelete := x.batch + idx;
      if batchToDelete < batches {
        left := left - {Item(x.oid, batchToDelete)};
      }
    }
  }

  lemma PassInPlace(job: Job, i: nat, skipOid: Option<nat>, readers: map<nat, DataReader>, lastByte: map<nat, nat>)
    requires ValidJob(job) && i < |job.list| && Some(job.list[i].oid) == skipOid
    requires SkipOidIs(job.list, job.outcomes, i, skipOid) && OwnReaders(job.agent, readers)
    requires AllInPlace(job, i, Reach(job.list, i, skipOid), readers, lastByte)
    ensures AllInPlace(job, i + 1, Reach(job.list, i + 1, skipOid), readers, lastByte)
    ensures Sent(job, i) == Untouched
  {
    forall b | HasData(job.agent, b)
      ensures Lost(job, b, i + 1) == Lost(job, b, i) && Shift(job, b, i + 1) == Shift(job, b, i)
    {
      LostNext(job, b, i);
    }
  }

  /** The helper is about to deal with item i. */
  ghost predicate AtItem(job: Job, i: nat, skipOid: Option<nat>, readers: map<nat, DataReader>, lastByte: map<nat, nat>)
    requires i <= |job.list| == |job.outcomes| && OwnReaders(job.agent, readers)
    reads readers.Values
  {
    NoneBehind(job, lastByte, i) && AllInPlace(job, i, Reach(job.list, i, skipOid), readers, lastByte)
  }

  /** The table being skipped after item i. */
  function NextSkip(job: Job, i: nat, skipOid: Option<nat>): Option<nat>
    requires i < |job.list| == |job.outcomes|
  {
    if job.outcomes[i].SkipFile? then Some(job.list[i].oid) else skipOid
  }

  /** The pipe queue places ahead of item i is created, unless its table is being skipped. */
  method CreateNext(job: Job, i: nat, skipOid: Option<nat>, pipes: set<Item>) returns (pipes': set<Item>)
    requires ValidJob(job) && i < |job.list| && SkipOidIs(job.list, job.outcomes, i, skipOid)
    requires PipesAt(job.list, job.outcomes, job.agent.queue, i, i + job.agent.queue, pipes)
    ensures PipesAt(job.list, job.outcomes, job.agent.queue, i, i + job.agent.queue + 1, pipes')
    ensures Some(job.list[i].oid) != skipOid && !job.outcomes[i].SkipFile? ==> job.list[i] in pipes'
  {
    var list, queue := job.list, job.agent.queue;
    pipes' := pipes;
    CreateAhead(list, job.outcomes, job.agent.batches, queue, i, skipOid, pipes);
    if i + queue < |list| && Some(list[i + queue].oid) != skipOid {
      assert list[i + queue] !in pipes;
      pipes' := pipes + {list[i + queue]};
    }
    if Some(list[i].oid) != skipOid && !job.outcomes[i].SkipFile? {
      Serve(list, job.outcomes, job.agent.batches, queue, i, skipOid, pipes');
    }
  }

  /** The pipes that go away after item i: none while skipping, those of a newly skipped table, or the item's own. */
  method Release(job: Job, i: nat, skipOid: Option<nat>, pipes: set<Item>) returns (pipes': set<Item>)
    requires ValidJob(job) && i < |job.list| && SkipOidIs(job.list, job.outcomes, i, skipOid)
    requires PipesAt(job.list, job.outcomes, job.agent.queue, i, i + job.agent.queue + 1, pipes)
    ensures PipesAt(job.list, job.outcomes, job.agent.queue, i + 1, i + 1 + job.agent.queue, pipes')
    ensures SkipOidIs(job.list, job.outcomes, i + 1, NextSkip(job, i, skipOid))
  {
    var list, a := job.list, job.agent;
    if Some(list[i].oid) == skipOid {
      PassOver(list, job.outcomes, a.batches, a.queue, i, skipOid, pipes);
      pipes' := pipes;
    } else if job.outcomes[i].SkipFile? {
      SkipHere(list, job.outcomes, a.batches, a.queue, i, skipOid, pipes);
      pipes' := DeletePipes(list[i], a.queue, a.batches, pipes);
    } else {
      Serve(list, job.outcomes, a.batches, a.queue, i, skipOid, pipes);
      pipes' := pipes - {list[i]};
    }
  }

  lemma SkippedGetsNothing(job: Job, i: nat)
    requires ValidJob(job) && i < |job.list| && job.outcomes[i].SkipFile?
    ensures Sent(job, i) == Untouched
  {
    SkippedNext(job.list, job.outcomes, job.list[i].oid, i);
  }

  /** At an item whose table is not being skipped, none of its batches has been. */
  lemma NotSkippedBefore(job: Job, i: nat, skipOid: Option<nat>)
    requires ValidJob(job) && i < |job.list| && SkipOidIs(job.list, job.outcomes, i, skipOid)
    requires Some(job.list[i].oid) != skipOid
    ensures !Skipped(job.list, job.outcomes, job.list[i].oid, i)
    ensures job.outcomes[i].SkipFile? ==> SkipsAt(job.list, job.outcomes, i)
  {
  }

  /** Item i is passed over, skipped or served. */
  method DealWith(job: Job, i: nat, skipOid: Option<nat>, readers: map<nat, DataReader>, lastByte: map<nat, nat>)
    returns (served: Delivery, lastByte': map<nat, nat>)
    requires ValidJob(job) && i < |job.list| && Readers(job, readers)
    requires SkipOidIs(job.list, job.outcomes, i, skipOid) && AtItem(job, i, skipOid, readers, lastByte)
    modifies readers.Values
    ensures served == Sent(job, i)
    ensures Succeeds(served) || job.agent.onErrorContinue ==>
              AtItem(job, i + 1, NextSkip(job, i, skipOid), readers, lastByte')
  {
    lastByte' := lastByte;
    if Some(job.list[i].oid) == skipOid {
      served := Untouched;
      PassInPlace(job, i, skipOid, readers, lastByte);
      return;
    }
    ServeReach(job.list, job.outcomes, job.agent.batches, i, skipOid);
    NotSkippedBefore(job, i, skipOid);
    if job.outcomes[i].SkipFile? {
      served := Untouched;
      SkippedGetsNothing(job, i);
      SkipTable(job, i, readers, lastByte);
    } else {
      served, lastByte' := ServeNext(job, i, readers, lastByte);
    }
  }

  /** Nothing has been read from any reader. */
  ghost predicate AtStart(job: Job, readers: map<nat, DataReader>)
    requires OwnReaders(job.agent, readers)
    reads readers.Values
  {
    forall b | HasData(job.agent, b) ::
      readers[ContentOf(job.agent, b)].position == 0 && !readers[ContentOf(job.agent, b)].discardErr
  }

  lemma StartsInPlace(job: Job, readers: map<nat, DataReader>)
    requires ValidJob(job) && OwnReaders(job.agent, readers)
    requires AtStart(job, readers)
    ensures AtItem(job, 0, None, readers, map[])
  {
  }

  /** The pipes that exist after i items. */
  ghost predicate Window(job: Job, i: nat, pipes: set<Item>)
    requires i <= |job.list| == |job.outcomes|
  {
    PipesAt(job.list, job.outcomes, job.agent.queue, i, i + job.agent.queue, pipes)
  }

  /** The pipes are those of the window before item i, and skipOid is the table being skipped. */
  ghost predicate WindowAt(job: Job, i: nat, skipOid: Option<nat>, pipes: set<Item>)
    requires i <= |job.list| == |job.outcomes|
  {
    Window(job, i, pipes) && SkipOidIs(job.list, job.outcomes, i, skipOid)
  }

  /** The pipes that exist before the loop. */
  method FirstPipes(job: Job) returns (pipes: set<Item>)
    requires ValidJob(job) && job.agent.queue <= |job.list|
    ensures WindowAt(job, 0, None, pipes)
  {
    pipes := set i | 0 <= i < job.agent.queue :: job.list[i];
    StartWindow(job.list, job.outcomes, job.agent.batches, job.agent.queue, pipes);
  }

  /** Skip files are looked for with onErrorContinue only. */
  ghost predicate SkipsAllowed(job: Job) {
    job.agent.onErrorContinue || forall o | o in job.outcomes :: !o.SkipFile?
  }

  /** One round of the loop. */
  method Round(job: Job, i: nat, skipOid: Option<nat>, pipes: set<Item>, readers: map<nat, DataReader>,
               lastByte: map<nat, nat>)
    returns (served: Delivery, pipes': set<Item>, lastByte': map<nat, nat>)
    requires ValidJob(job) && i < |job.list| && Readers(job, readers)
    requires WindowAt(job, i, skipOid, pipes) && AtItem(job, i, skipOid, readers, lastByte)
    modifies readers.Values
    ensures served == Sent(job, i)
    ensures WindowAt(job, i + 1, NextSkip(job, i, skipOid), pipes')
    ensures Succeeds(served) || job.agent.onErrorContinue ==>
              AtItem(job, i + 1, NextSkip(job, i, skipOid), readers, lastByte')
  {
    var created := CreateNext(job, i, skipOid, pipes);
    served, lastByte' := DealWith(job, i, skipOid, readers, lastByte);
    pipes' := Release(job, i, skipOid, created);
  }

  /**
   * The helper's main loop; without onErrorContinue no skip file is looked for. sent tells for each item dealt
   * with what its pipe got, and pipes which pipes are left.
   */
  method ServeList(job: Job, readers: map<nat, DataReader>) returns (sent: seq<Delivery>, pipes: set<Item>)
    requires ValidJob(job) && job.agent.queue <= |job.list| && Readers(job, readers)
    requires AtStart(job, readers)
    requires SkipsAllowed(job)
    modifies readers.Values
    ensures |sent| <= |job.list| && SentRight(job, sent)
    ensures EndsEarly(job, sent) || |sent| == |job.list|
    ensures Window(job, |sent|, pipes)
  {
    pipes := FirstPipes(job);
    StartsInPlace(job, readers);
    sent := [];
    var lastByte: map<nat, nat> := map[];
    var skipOid: Option<nat> := None;
    var i := 0;
    while i < |job.list|
      invariant i == |sent| <= |job.list| && SentRight(job, sent)
      invariant WindowAt(job, i, skipOid, pipes) && AtItem(job, i, skipOid, readers, lastByte)
    {
      var served;
      served, pipes, lastByte := Round(job, i, skipOid, pipes, readers, lastByte);
      SentOne(job, sent);
      sent := sent + [served];
      if !Succeeds(served) && !job.agent.onErrorContinue {
        return;
      }
      skipOid := NextSkip(job, i, skipOid);
      i := i + 1;
    }
  }
}

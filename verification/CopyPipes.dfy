/**
 * The pipe protocol between gprestore's COPY workers and the restore helper of each segment: every helper walks the
 * flat list in order, the workers in strides, and a table whose COPY fails is skipped. No run gets stuck.
 */
module CopyPipes {
  import opened Collections
  import opened OidLists

  // ----- The protocol -----

  /** Where a helper is with its item: the next pipe to create, a pipe to open, a writer to close, a pipe to delete. */
  datatype Stage = Create | Open | Close | Delete

  /** skipFiles are the tables with a skip file on the helper's segment, skipping the one it skips or skipped last. */
  datatype Helper = Helper(pos: nat, stage: Stage, live: set<nat>, skipFiles: set<nat>, skipping: Option<nat>)

  /** What the segment process of a COPY is doing. */
  datatype Reader = Waiting | Attached | Finished

  /**
   * A worker is at a batch of a table; copying is set while its COPY is running on the segments, and failing while it
   * leaves skip files for a table whose COPY has failed.
   */
  datatype Worker = Worker(table: nat, batch: nat, copying: Option<seq<Reader>>, failing: bool)

  /** copied are the positions of the items whose COPY has succeeded. */
  datatype State = State(helpers: seq<Helper>, workers: seq<Worker>, copied: set<nat>)

  /** The items that a helper is done with are those below this position. */
  function Through(h: Helper): nat {
    h.pos + if h.stage == Delete then 1 else 0
  }

  /** The flat position a worker has reached. */
  function Cur(cfg: Config, w: Worker): nat {
    Start(cfg, w.table) + w.batch
  }

  predicate Active(cfg: Config, w: Worker) {
    w.table < |cfg.replicated|
  }

  function FirstItem(w: nat): Worker {
    Worker(w, 0, None, false)
  }

  ghost function Init(cfg: Config): State {
    State(seq(cfg.segments, s => Helper(0, Create, Below(cfg.queue), {}, None)),
          seq(cfg.conns, w requires w >= 0 => FirstItem(w)), {})
  }

  datatype Move =
    | Issue(w: nat)               // a worker issues the COPY of its item
    | Attach(w: nat, s: nat)      // a segment process finds its pipe and opens it for reading
    | MakePipe(s: nat)            // a helper starts on an item and creates the pipe queue places ahead
    | CopyData(s: nat)            // a helper finds a reader on the pipe of its item and writes the data
    | CloseWriter(s: nat)         // a helper closes that pipe; its reader, if still there, sees the end of file
    | DropPipe(s: nat)            // a helper deletes the closed pipe and goes on to its next item
    | Complete(w: nat)            // a COPY whose segments are all done returns; the worker moves on
    | Fail(w: nat)                // a COPY fails, and its segment processes go away
    | Touch(w: nat, s: nat)       // its worker leaves a skip file for the table on a segment
    | GiveUp(w: nat)              // with skip files on all segments the worker goes on to its next table
    | Skip(s: nat)                // a helper finds no reader on the pipe of its item, but a skip file for the table
    | Pass(s: nat)                // a helper passes over a further item of the table that it skips

  function AfterCopy(cfg: Config, w: Worker): Worker {
    if w.batch + 1 < BatchesOf(cfg, w.table) then Worker(w.table, w.batch + 1, None, false) else AfterTable(cfg, w)
  }

  function AfterTable(cfg: Config, w: Worker): Worker {
    FirstItem(w.table + cfg.conns)
  }

  /** Worker w has a reader in state r on segment s, for the item at position i. */
  predicate ReaderIs(cfg: Config, st: State, w: nat, s: nat, i: nat, r: Reader) {
    && w < |st.workers| && Active(cfg, st.workers[w]) && Cur(cfg, st.workers[w]) == i
    && st.workers[w].copying.Some? && s < |st.workers[w].copying.value| && st.workers[w].copying.value[s] == r
  }

  /** Some segment process reads the pipe of the item a helper is at. */
  ghost predicate HasReader(cfg: Config, st: State, s: nat)
    requires s < |st.helpers|
  {
    exists w :: ReaderIs(cfg, st, w, s, st.helpers[s].pos, Attached)
  }

  function SetWorker(st: State, w: nat, wk: Worker): State
    requires w < |st.workers|
  {
    st.(workers := st.workers[w := wk])
  }

  function SetReader(st: State, w: nat, s: nat, r: Reader): State
    requires w < |st.workers| && st.workers[w].copying.Some? && s < |st.workers[w].copying.value|
  {
    var wk := st.workers[w];
    SetWorker(st, w, wk.(copying := Some(wk.copying.value[s := r])))
  }

  function SetHelper(st: State, s: nat, h: Helper): State
    requires s < |st.helpers|
  {
    st.(helpers := st.helpers[s := h])
  }

  /** The item at position i belongs to the table the helper is skipping. */
  predicate SkipsItem(cfg: Config, h: Helper, i: nat) {
    h.skipping == Some(TableAt(cfg, i))
  }

  function Made(cfg: Config, h: Helper): Helper {
    var next := h.pos + cfg.queue;
    var made := if next < Len(cfg) && !SkipsItem(cfg, h, next) then {next} else {};
    h.(stage := Open, live := h.live + made)
  }

  function Dropped(h: Helper): Helper {
    h.(pos := h.pos + 1, stage := Create, live := h.live - {h.pos})
  }

  /** The pipes removed when a table is skipped: those of up to queue of its batches, from the current one on. */
  function SkipDeletes(cfg: Config, h: Helper): set<nat> {
    set i | i in h.live && h.pos <= i < h.pos + cfg.queue && TableAt(cfg, i) == TableAt(cfg, h.pos)
  }

  function SkipFrom(cfg: Config, h: Helper): Helper {
    h.(pos := h.pos + 1, stage := Create, live := h.live - SkipDeletes(cfg, h), skipping := Some(TableAt(cfg, h.pos)))
  }

  function Passed(h: Helper): Helper {
    h.(pos := h.pos + 1, stage := Create)
  }

  ghost function Closed(st: State, s: nat, w: nat): State
    requires s < |st.helpers| && w < |st.workers| && st.workers[w].copying.Some? && s < |st.workers[w].copying.value|
  {
    SetReader(SetHelper(st, s, st.helpers[s].(stage := Delete)), w, s, Finished)
  }

  function Touched(st: State, s: nat, t: nat): State
    requires s < |st.helpers|
  {
    SetHelper(st, s, st.helpers[s].(skipFiles := st.helpers[s].skipFiles + {t}))
  }

  ghost predicate AllFinished(readers: seq<Reader>) {
    forall s | 0 <= s < |readers| :: readers[s] == Finished
  }

  /** There is a skip file for the table on every segment. */
  ghost predicate SkippedEverywhere(st: State, t: nat) {
    forall h | h in st.helpers :: t in h.skipFiles
  }

  ghost predicate WorkerStep(cfg: Config, st: State, m: Move, st': State)
    requires !(m.MakePipe? || m.CopyData? || m.CloseWriter? || m.DropPipe? || m.Skip? || m.Pass?)
  {
    m.w < |st.workers| && Active(cfg, st.workers[m.w])
    && var wk := st.workers[m.w];
    match m
    case Issue(w) =>
      && wk.copying == None && !wk.failing
      && st' == SetWorker(st, w, wk.(copying := Some(seq(cfg.segments, s => Waiting))))
    case Attach(w, s) =>
      && s < |st.helpers| && ReaderIs(cfg, st, w, s, Cur(cfg, wk), Waiting)
      && Cur(cfg, wk) in st.helpers[s].live
      && st' == SetReader(st, w, s, Attached)
    case Complete(w) =>
      && wk.copying.Some? && AllFinished(wk.copying.value)
      && st' == SetWorker(st, w, AfterCopy(cfg, wk)).(copied := st.copied + {Cur(cfg, wk)})
    case Fail(w) => wk.copying.Some? && st' == SetWorker(st, w, wk.(copying := None, failing := true))
    case Touch(w, s) =>
      && wk.failing && s < |st.helpers| && wk.table !in st.helpers[s].skipFiles && st' == Touched(st, s, wk.table)
    case GiveUp(w) => wk.failing && SkippedEverywhere(st, wk.table) && st' == SetWorker(st, w, AfterTable(cfg, wk))
  }

  ghost predicate HelperStep(cfg: Config, st: State, m: Move, st': State)
    requires m.MakePipe? || m.CopyData? || m.CloseWriter? || m.DropPipe? || m.Skip? || m.Pass?
  {
    m.s < |st.helpers| && st.helpers[m.s].pos < Len(cfg)
    && var h := st.helpers[m.s];
    match m
    case MakePipe(s) => h.stage == Create && st' == SetHelper(st, s, Made(cfg, h))
    case CopyData(s) =>
      && h.stage == Open && !SkipsItem(cfg, h, h.pos) && h.pos in h.live && HasReader(cfg, st, s)
      && st' == SetHelper(st, s, h.(stage := Close))
    case CloseWriter(s) =>
      && h.stage == Close
      && if HasReader(cfg, st, s) then exists w :: ReaderIs(cfg, st, w, s, h.pos, Attached) && st' == Closed(st, s, w)
         else st' == SetHelper(st, s, h.(stage := Delete))
    case DropPipe(s) => h.stage == Delete && st' == SetHelper(st, s, Dropped(h))
    case Skip(s) =>
      && h.stage == Open && !SkipsItem(cfg, h, h.pos) && TableAt(cfg, h.pos) in h.skipFiles && !HasReader(cfg, st, s)
      && st' == SetHelper(st, s, SkipFrom(cfg, h))
    case Pass(s) => h.stage == Open && SkipsItem(cfg, h, h.pos) && st' == SetHelper(st, s, Passed(h))
  }

  ghost predicate Step(cfg: Config, st: State, m: Move, st': State) {
    if m.MakePipe? || m.CopyData? || m.CloseWriter? || m.DropPipe? || m.Skip? || m.Pass?
    then HelperStep(cfg, st, m, st')
    else WorkerStep(cfg, st, m, st')
  }

  ghost predicate CanStep(cfg: Config, st: State, st': State) {
    exists m :: Step(cfg, st, m, st')
  }

  ghost predicate IsRun(cfg: Config, run: seq<State>) {
    && run != [] && run[0] == Init(cfg)
    && forall i, j | 0 <= i < j < |run| && j == i + 1 :: CanStep(cfg, run[i], run[j])
  }

  // ----- The invariant -----

  /** How far pipes have been created by a helper. */
  function Created(cfg: Config, h: Helper): nat {
    var ahead := h.pos + cfg.queue + if h.stage == Create then 0 else 1;
    if ahead < Len(cfg) then ahead else Len(cfg)
  }

  /** A skip then reaches all further batches of its table. */
  predicate Roomy(cfg: Config) {
    cfg.queue >= cfg.batches || cfg.queue == Len(cfg)
  }

  /**
   * The live pipes of a helper are exactly those from its item up to the last one created, less those of the table it
   * is skipping; only where a skip does not reach all batches of a table others can be left.
   */
  ghost predicate LiveOK(cfg: Config, h: Helper) {
    && (forall i: nat | h.pos <= i < Len(cfg) && !SkipsItem(cfg, h, i) :: i in h.live <==> i < Created(cfg, h))
    && (forall i | i in h.live :: i < Created(cfg, h))
    && (Roomy(cfg) ==> forall i | i in h.live :: h.pos <= i && !SkipsItem(cfg, h, i))
  }

  ghost predicate HelperOK(cfg: Config, h: Helper) {
    && h.pos <= Len(cfg)
    && (h.stage != Create ==> h.pos < Len(cfg))
    && (h.stage == Close || h.stage == Delete ==> !SkipsItem(cfg, h, h.pos))
    && (h.skipping.Some? ==> h.skipping.value in h.skipFiles)
    && (h.skipping.Some? && h.pos < Len(cfg) ==> h.skipping.value <= TableAt(cfg, h.pos))
    && LiveOK(cfg, h)
  }

  predicate WorkerOK(cfg: Config, w: nat, wk: Worker)
    requires cfg.conns > 0
  {
    && Owner(cfg.conns, wk.table) == w
    && (Active(cfg, wk) ==> wk.batch < BatchesOf(cfg, wk.table))
    && (!Active(cfg, wk) ==> wk.batch == 0 && wk.copying == None && !wk.failing)
    && (wk.copying.Some? ==> |wk.copying.value| == cfg.segments && !wk.failing)
  }

  predicate FinishedOn(wk: Worker, s: nat) {
    wk.copying.Some? && s < |wk.copying.value| && wk.copying.value[s] == Finished
  }

  /** Batch b of table t is an item of worker w. */
  predicate OwnItem(cfg: Config, w: nat, t: nat, b: nat)
    requires cfg.conns > 0
  {
    t < |cfg.replicated| && b < BatchesOf(cfg, t) && Owner(cfg.conns, t) == w
  }

  /** The worker is done with the item at position i as far as segment s is concerned. */
  predicate PastOn(cfg: Config, wk: Worker, s: nat, i: nat) {
    i < Cur(cfg, wk) || (i == Cur(cfg, wk) && FinishedOn(wk, s))
  }

  /**
   * Of the tables without a skip file, a helper is done with exactly the items whose workers are past them on its
   * segment; the item whose COPY has just failed may be either way.
   */
  ghost predicate Synced(cfg: Config, h: Helper, s: nat, w: nat, wk: Worker)
    requires cfg.conns > 0
  {
    forall t: nat, b: nat | OwnItem(cfg, w, t, b) && t !in h.skipFiles ::
      (wk.failing && Start(cfg, t) + b == Cur(cfg, wk))
      || (Start(cfg, t) + b < Through(h) <==> PastOn(cfg, wk, s, Start(cfg, t) + b))
  }

  /** Only a table that its worker has failed to copy has skip files. */
  ghost predicate SkipFilesOK(cfg: Config, h: Helper, w: nat, wk: Worker)
    requires cfg.conns > 0
  {
    forall t: nat | t in h.skipFiles && Owner(cfg.conns, t) == w ::
      t < |cfg.replicated| && (t < wk.table || (t == wk.table && wk.failing))
  }

  ghost predicate PairOK(cfg: Config, h: Helper, s: nat, w: nat, wk: Worker)
    requires cfg.conns > 0
  {
    Synced(cfg, h, s, w, wk) && SkipFilesOK(cfg, h, w, wk)
  }

  /** A helper about to close a pipe has a reader on it, unless the reader's COPY has failed. */
  ghost predicate ServedOK(cfg: Config, st: State, s: nat)
    requires s < |st.helpers| && cfg.conns > 0
  {
    var h := st.helpers[s];
    h.stage == Close ==> HasReader(cfg, st, s) || TableAt(cfg, h.pos) in h.skipFiles || FailingAt(cfg, st, h.pos)
  }

  /** The COPY of the item at position i has failed. */
  ghost predicate FailingAt(cfg: Config, st: State, i: nat) {
    exists w :: 0 <= w < |st.workers| && Active(cfg, st.workers[w]) && st.workers[w].failing
                && Cur(cfg, st.workers[w]) == i
  }

  /** What a worker is past has been copied, or given up everywhere. */
  ghost predicate CopiedOK(cfg: Config, st: State, w: nat)
    requires cfg.conns > 0 && w < |st.workers|
  {
    forall t: nat, b: nat | OwnItem(cfg, w, t, b) && Start(cfg, t) + b < Cur(cfg, st.workers[w]) ::
      Start(cfg, t) + b in st.copied || SkippedEverywhere(st, t)
  }

  ghost predicate Inv(cfg: Config, st: State)
    requires cfg.conns > 0
  {
    && |st.helpers| == cfg.segments && |st.workers| == cfg.conns
    && (forall s | 0 <= s < cfg.segments :: HelperOK(cfg, st.helpers[s]) && ServedOK(cfg, st, s))
    && (forall w | 0 <= w < cfg.conns :: WorkerOK(cfg, w, st.workers[w]) && CopiedOK(cfg, st, w))
    && (forall s, w | 0 <= s < cfg.segments && 0 <= w < cfg.conns ::
          PairOK(cfg, st.helpers[s], s, w, st.workers[w]))
  }

  lemma InitInv(cfg: Config)
    requires ValidConfig(cfg)
    ensures Inv(cfg, Init(cfg))
  {
    var st := Init(cfg);
    forall s, w | 0 <= s < cfg.segments && 0 <= w < cfg.conns
      ensures Synced(cfg, st.helpers[s], s, w, st.workers[w])
    {
      forall t: nat, b: nat | OwnItem(cfg, w, t, b)
        ensures !PastOn(cfg, st.workers[w], s, Start(cfg, t) + b)
      {
        StartMonotone(cfg, w, t);
      }
    }
    forall w | 0 <= w < cfg.conns
      ensures CopiedOK(cfg, st, w)
    {
      forall t: nat, b: nat | OwnItem(cfg, w, t, b)
        ensures Start(cfg, t) + b >= Cur(cfg, st.workers[w])
      {
        StartMonotone(cfg, w, t);
      }
    }
    forall s | 0 <= s < cfg.segments
      ensures HelperOK(cfg, st.helpers[s])
    {
    }
  }

  lemma ActiveBelowLen(cfg: Config, wk: Worker)
    requires Active(cfg, wk) && wk.batch < BatchesOf(cfg, wk.table)
    ensures Cur(cfg, wk) < Len(cfg)
  {
    StartBefore(cfg, wk.table, |cfg.replicated|);
  }

  /** Going on to the next table skips no item of the worker, and goes at most one round of the others ahead. */
  lemma AfterTableMoves(cfg: Config, w: nat, wk: Worker)
    requires ValidConfig(cfg) && Active(cfg, wk) && wk.batch < BatchesOf(cfg, wk.table)
    requires Owner(cfg.conns, wk.table) == w
    ensures Owner(cfg.conns, AfterTable(cfg, wk).table) == w
    ensures Cur(cfg, wk) < Cur(cfg, AfterTable(cfg, wk)) <=
            Start(cfg, wk.table) + BatchesOf(cfg, wk.table) + (cfg.conns - 1) * cfg.batches
    ensures forall t: nat, b: nat | OwnItem(cfg, w, t, b) ::
              Start(cfg, t) + b < Cur(cfg, AfterTable(cfg, wk)) <==> t <= wk.table
  {
    var t0 := wk.table;
    StartMonotone(cfg, t0 + 1, t0 + cfg.conns);
    forall t: nat, b: nat | OwnItem(cfg, w, t, b)
      ensures Start(cfg, t) + b < Cur(cfg, AfterTable(cfg, wk)) <==> t <= t0
    {
      if t <= t0 {
        StartBefore(cfg, t, t0 + cfg.conns);
      } else if t < t0 + cfg.conns {
        StridesDisjoint(cfg.conns, t0, t);
      } else {
        StartMonotone(cfg, t0 + cfg.conns, t);
      }
    }
  }

  /** Items are ordered by their tables first, and each flat position belongs to one item only. */
  lemma ItemsByTable(cfg: Config, t: nat, b: nat, u: nat, c: nat)
    requires t < |cfg.replicated| && b < BatchesOf(cfg, t) && u < |cfg.replicated| && c < BatchesOf(cfg, u)
    ensures Start(cfg, t) + b < Start(cfg, u) + c <==> t < u || (t == u && b < c)
    ensures Start(cfg, t) + b == Start(cfg, u) + c <==> t == u && b == c
  {
    if t < u {
      StartBefore(cfg, t, u);
    } else if u < t {
      StartBefore(cfg, u, t);
    }
  }

  /** Moving on skips no item of the worker, and goes at most one full round of the other workers ahead. */
  lemma AfterCopyMoves(cfg: Config, w: nat, wk: Worker)
    requires ValidConfig(cfg) && Active(cfg, wk) && wk.batch < BatchesOf(cfg, wk.table)
    requires Owner(cfg.conns, wk.table) == w
    ensures Owner(cfg.conns, AfterCopy(cfg, wk).table) == w
    ensures Cur(cfg, wk) < Cur(cfg, AfterCopy(cfg, wk)) <= Cur(cfg, wk) + 1 + (cfg.conns - 1) * cfg.batches
    ensures forall t: nat, b: nat | OwnItem(cfg, w, t, b) ::
              Start(cfg, t) + b < Cur(cfg, AfterCopy(cfg, wk)) <==> Start(cfg, t) + b <= Cur(cfg, wk)
  {
    if wk.batch + 1 < BatchesOf(cfg, wk.table) {
      TimesMonotone(0, cfg.conns - 1, cfg.batches);
    } else {
      AfterTableMoves(cfg, w, wk);
      forall t: nat, b: nat | OwnItem(cfg, w, t, b)
        ensures Start(cfg, t) + b <= Cur(cfg, wk) <==> t <= wk.table
      {
        ItemsByTable(cfg, t, b, wk.table, wk.batch);
      }
    }
  }

  lemma TimesMonotone(a: int, b: int, unit: nat)
    requires a <= b
    ensures a * unit <= b * unit
    ensures (b + 1) * unit == b * unit + unit
  {
  }

  // ----- Worker moves -----

  /** What happens on a segment when worker w changes but stays where it is, and the helper stays as it is. */
  lemma SameProgress(cfg: Config, h: Helper, s: nat, w: nat, wk: Worker, wk': Worker)
    requires cfg.conns > 0 && PairOK(cfg, h, s, w, wk)
    requires wk'.table == wk.table && wk'.batch == wk.batch
    requires wk'.failing || (!wk.failing && FinishedOn(wk', s) == FinishedOn(wk, s))
    ensures PairOK(cfg, h, s, w, wk')
  {
    forall t: nat, b: nat | OwnItem(cfg, w, t, b) && t !in h.skipFiles && Start(cfg, t) + b != Cur(cfg, wk)
      ensures PastOn(cfg, wk', s, Start(cfg, t) + b) <==> PastOn(cfg, wk, s, Start(cfg, t) + b)
    {
    }
  }

  lemma CopiedKept(cfg: Config, st: State, st': State, w: nat)
    requires cfg.conns > 0 && w < |st.workers| == |st'.workers| && CopiedOK(cfg, st, w)
    requires Cur(cfg, st'.workers[w]) == Cur(cfg, st.workers[w])
    requires st.copied <= st'.copied && forall t: nat | SkippedEverywhere(st, t) :: SkippedEverywhere(st', t)
    ensures CopiedOK(cfg, st', w)
  {
  }

  /** The reader of another worker, or the failure of its COPY, is not affected. */
  lemma ServedKept(cfg: Config, st: State, st': State, s: nat)
    requires cfg.conns > 0 && s < |st.helpers| == |st'.helpers| && |st'.workers| == |st.workers|
    requires ServedOK(cfg, st, s) && st'.helpers[s].pos == st.helpers[s].pos
    requires st'.helpers[s].stage == Close ==> st.helpers[s].stage == Close
    requires st.helpers[s].skipFiles <= st'.helpers[s].skipFiles
    requires HasReader(cfg, st, s) && st'.helpers[s].stage == Close ==>
               HasReader(cfg, st', s) || FailingAt(cfg, st', st.helpers[s].pos)
    requires FailingAt(cfg, st, st.helpers[s].pos) && st'.helpers[s].stage == Close ==>
               FailingAt(cfg, st', st.helpers[s].pos) || TableAt(cfg, st.helpers[s].pos) in st'.helpers[s].skipFiles
    ensures ServedOK(cfg, st', s)
  {
  }

  lemma ReaderKept(cfg: Config, st: State, st': State, s: nat, w: nat)
    requires s < |st.helpers| && st'.helpers == st.helpers && w < |st.workers| && |st'.workers| == |st.workers|
    requires forall v | 0 <= v < |st.workers| && v != w :: st'.workers[v] == st.workers[v]
    ensures HasReader(cfg, st, s) && !HasReader(cfg, st', s) ==> ReaderIs(cfg, st, w, s, st.helpers[s].pos, Attached)
    ensures FailingAt(cfg, st, st.helpers[s].pos) && !FailingAt(cfg, st', st.helpers[s].pos) ==>
              st.workers[w].failing && Active(cfg, st.workers[w]) && Cur(cfg, st.workers[w]) == st.helpers[s].pos
  {
    var pos := st.helpers[s].pos;
    if HasReader(cfg, st, s) {
      var v :| ReaderIs(cfg, st, v, s, pos, Attached);
      if v != w {
        assert ReaderIs(cfg, st', v, s, pos, Attached);
      }
    }
    if FailingAt(cfg, st, pos) {
      var v :| 0 <= v < |st.workers| && Active(cfg, st.workers[v]) && st.workers[v].failing
               && Cur(cfg, st.workers[v]) == pos;
      if v != w {
        assert st'.workers[v] == st.workers[v];
      }
    }
  }

  lemma StayKeepsInv(cfg: Config, st: State, w: nat, wk: Worker, st': State)
    requires ValidConfig(cfg) && Inv(cfg, st) && w < cfg.conns && st' == SetWorker(st, w, wk)
    requires WorkerOK(cfg, w, wk) && Active(cfg, st.workers[w]) && !st.workers[w].failing
    requires wk.table == st.workers[w].table && wk.batch == st.workers[w].batch
    requires forall s | 0 <= s < cfg.segments ::
               wk.failing || (FinishedOn(wk, s) == FinishedOn(st.workers[w], s)
                              && (ReaderIs(cfg, st, w, s, Cur(cfg, wk), Attached) ==>
                                    ReaderIs(cfg, st', w, s, Cur(cfg, wk), Attached)))
    ensures Inv(cfg, st')
  {
    forall s | 0 <= s < cfg.segments
      ensures ServedOK(cfg, st', s) && PairOK(cfg, st'.helpers[s], s, w, st'.workers[w])
    {
      SameProgress(cfg, st.helpers[s], s, w, st.workers[w], wk);
      ReaderKept(cfg, st, st', s, w);
      if wk.failing && Cur(cfg, wk) == st.helpers[s].pos {
        assert Active(cfg, st'.workers[w]) && st'.workers[w].failing;
        assert FailingAt(cfg, st', st.helpers[s].pos);
      }
      ServedKept(cfg, st, st', s);
    }
    forall v | 0 <= v < cfg.conns
      ensures WorkerOK(cfg, v, st'.workers[v]) && CopiedOK(cfg, st', v)
    {
      CopiedKept(cfg, st, st', v);
    }
  }

  /** A worker that moves on takes the segments along that are done with its item, or have a skip file for the table. */
  lemma MoveOnPair(cfg: Config, h: Helper, s: nat, w: nat, wk: Worker)
    requires ValidConfig(cfg) && Active(cfg, wk) && WorkerOK(cfg, w, wk) && PairOK(cfg, h, s, w, wk)
    ensures FinishedOn(wk, s) ==> PairOK(cfg, h, s, w, AfterCopy(cfg, wk))
    ensures wk.failing && wk.table in h.skipFiles ==> PairOK(cfg, h, s, w, AfterTable(cfg, wk))
  {
    AfterCopyMoves(cfg, w, wk);
    AfterTableMoves(cfg, w, wk);
    forall t: nat, b: nat | OwnItem(cfg, w, t, b)
      ensures Start(cfg, t) + b < Cur(cfg, wk) <==> t < wk.table || (t == wk.table && b < wk.batch)
    {
      ItemsByTable(cfg, t, b, wk.table, wk.batch);
    }
  }

  lemma MoveOnKeepsInv(cfg: Config, st: State, w: nat, wk: Worker, copied: set<nat>, st': State)
    requires ValidConfig(cfg) && Inv(cfg, st) && w < cfg.conns && st' == SetWorker(st, w, wk).(copied := copied)
    requires WorkerOK(cfg, w, wk) && CopiedOK(cfg, st', w) && st.copied <= copied
    requires forall s | 0 <= s < cfg.segments ::
               && PairOK(cfg, st.helpers[s], s, w, wk)
               && !ReaderIs(cfg, st, w, s, st.helpers[s].pos, Attached)
               && (st.workers[w].failing ==> st.workers[w].table in st.helpers[s].skipFiles)
    ensures Inv(cfg, st')
  {
    assert WorkerOK(cfg, w, st.workers[w]);
    forall s | 0 <= s < cfg.segments
      ensures ServedOK(cfg, st', s)
    {
      ReaderKept(cfg, st, st', s, w);
      if Active(cfg, st.workers[w]) {
        TableAtIs(cfg, st.workers[w].table, st.workers[w].batch);
      }
      ServedKept(cfg, st, st', s);
    }
    forall v | 0 <= v < cfg.conns
      ensures WorkerOK(cfg, v, st'.workers[v]) && CopiedOK(cfg, st', v)
    {
      if v != w {
        CopiedKept(cfg, st, st', v);
      }
    }
  }

  lemma CompleteKeepsInv(cfg: Config, st: State, w: nat, st': State)
    requires ValidConfig(cfg) && Inv(cfg, st) && Step(cfg, st, Complete(w), st')
    ensures Inv(cfg, st')
  {
    var wk := st.workers[w];
    assert WorkerOK(cfg, w, wk) && CopiedOK(cfg, st, w);
    AfterCopyMoves(cfg, w, wk);
    forall s | 0 <= s < cfg.segments
      ensures PairOK(cfg, st.helpers[s], s, w, AfterCopy(cfg, wk))
    {
      assert wk.copying.value[s] == Finished;
      assert PairOK(cfg, st.helpers[s], s, w, wk);
      MoveOnPair(cfg, st.helpers[s], s, w, wk);
    }
    assert CopiedOK(cfg, st', w);
    MoveOnKeepsInv(cfg, st, w, AfterCopy(cfg, wk), st'.copied, st');
  }

  lemma GiveUpKeepsInv(cfg: Config, st: State, w: nat, st': State)
    requires ValidConfig(cfg) && Inv(cfg, st) && Step(cfg, st, GiveUp(w), st')
    ensures Inv(cfg, st')
  {
    var wk := st.workers[w];
    assert WorkerOK(cfg, w, wk) && CopiedOK(cfg, st, w);
    AfterTableMoves(cfg, w, wk);
    forall s | 0 <= s < cfg.segments
      ensures PairOK(cfg, st.helpers[s], s, w, AfterTable(cfg, wk)) && wk.table in st.helpers[s].skipFiles
    {
      assert st.helpers[s] in st.helpers;
      assert PairOK(cfg, st.helpers[s], s, w, wk);
      MoveOnPair(cfg, st.helpers[s], s, w, wk);
    }
    GiveUpCopied(cfg, st, w, st');
    MoveOnKeepsInv(cfg, st, w, AfterTable(cfg, wk), st.copied, st');
  }

  lemma GiveUpCopied(cfg: Config, st: State, w: nat, st': State)
    requires ValidConfig(cfg) && Inv(cfg, st) && Step(cfg, st, GiveUp(w), st')
    ensures CopiedOK(cfg, st', w)
  {
    var wk := st.workers[w];
    assert WorkerOK(cfg, w, wk) && CopiedOK(cfg, st, w);
    AfterTableMoves(cfg, w, wk);
    assert SkippedEverywhere(st', wk.table);
    forall t: nat, b: nat | OwnItem(cfg, w, t, b) && Start(cfg, t) + b < Cur(cfg, st'.workers[w]) && t != wk.table
      ensures Start(cfg, t) + b in st'.copied || SkippedEverywhere(st', t)
    {
      ItemsByTable(cfg, t, b, wk.table, wk.batch);
      assert Start(cfg, t) + b in st.copied || SkippedEverywhere(st, t);
    }
  }

  lemma TouchKeepsInv(cfg: Config, st: State, w: nat, s: nat, st': State)
    requires ValidConfig(cfg) && Inv(cfg, st) && Step(cfg, st, Touch(w, s), st')
    ensures Inv(cfg, st')
  {
    var t := st.workers[w].table;
    assert WorkerOK(cfg, w, st.workers[w]);
    assert HelperOK(cfg, st.helpers[s]);
    assert HelperOK(cfg, st'.helpers[s]);
    forall r | 0 <= r < cfg.segments
      ensures ServedOK(cfg, st', r)
    {
      SameWorkersKeepReaders(cfg, st, st', r);
    }
    forall r, v | 0 <= r < cfg.segments && 0 <= v < cfg.conns
      ensures PairOK(cfg, st'.helpers[r], r, v, st'.workers[v])
    {
      assert PairOK(cfg, st.helpers[r], r, v, st.workers[v]);
    }
    forall v | 0 <= v < cfg.conns
      ensures CopiedOK(cfg, st', v)
    {
      SkippedGrows(st, st');
      CopiedKept(cfg, st, st', v);
    }
  }

  lemma SkippedGrows(st: State, st': State)
    requires |st.helpers| == |st'.helpers|
    requires forall s | 0 <= s < |st.helpers| :: st.helpers[s].skipFiles <= st'.helpers[s].skipFiles
    ensures forall t: nat | SkippedEverywhere(st, t) :: SkippedEverywhere(st', t)
  {
    forall t: nat, h | SkippedEverywhere(st, t) && h in st'.helpers
      ensures t in h.skipFiles
    {
      var s :| 0 <= s < |st'.helpers| && st'.helpers[s] == h;
      assert st.helpers[s] in st.helpers;
    }
  }

  /** Nothing happens to the readers when no worker changes. */
  lemma SameWorkersKeepReaders(cfg: Config, st: State, st': State, s: nat)
    requires cfg.conns > 0 && s < |st.helpers| == |st'.helpers| && st'.workers == st.workers
    requires st'.helpers[s].pos == st.helpers[s].pos && st.helpers[s].skipFiles <= st'.helpers[s].skipFiles
    requires ServedOK(cfg, st, s)
    ensures HasReader(cfg, st', s) == HasReader(cfg, st, s)
    ensures (st'.helpers[s].stage == Close ==> st.helpers[s].stage == Close || HasReader(cfg, st, s)) ==>
              ServedOK(cfg, st', s)
  {
    var pos := st.helpers[s].pos;
    if w :| ReaderIs(cfg, st, w, s, pos, Attached) {
      assert ReaderIs(cfg, st', w, s, pos, Attached);
    }
    if w :| ReaderIs(cfg, st', w, s, pos, Attached) {
      assert ReaderIs(cfg, st, w, s, pos, Attached);
    }
  }

  // ----- Helper moves -----

  /** The pairs of a helper that goes past the item at its position, if that one belongs to a table with a skip file. */
  lemma PastSkipped(cfg: Config, h: Helper, h': Helper, s: nat, w: nat, wk: Worker)
    requires cfg.conns > 0 && PairOK(cfg, h, s, w, wk) && h.pos < Len(cfg)
    requires h'.skipFiles == h.skipFiles
    requires Through(h') == Through(h)
             || (Through(h) == h.pos && Through(h') == h.pos + 1 && TableAt(cfg, h.pos) in h.skipFiles)
    ensures PairOK(cfg, h', s, w, wk)
  {
    forall t: nat, b: nat | OwnItem(cfg, w, t, b) && t !in h.skipFiles
      ensures Start(cfg, t) + b < Through(h') <==> Start(cfg, t) + b < Through(h)
    {
      TableAtIs(cfg, t, b);
    }
  }

  lemma MakeKeepsHelper(cfg: Config, h: Helper)
    requires ValidConfig(cfg) && HelperOK(cfg, h) && h.stage == Create && h.pos < Len(cfg)
    ensures HelperOK(cfg, Made(cfg, h))
  {
  }

  lemma DropKeepsHelper(cfg: Config, h: Helper)
    requires ValidConfig(cfg) && HelperOK(cfg, h) && h.stage == Delete
    ensures HelperOK(cfg, Dropped(h))
  {
    if h.pos + 1 < Len(cfg) {
      TableAtMonotone(cfg, h.pos, h.pos + 1);
    }
  }

  lemma PassKeepsHelper(cfg: Config, h: Helper)
    requires ValidConfig(cfg) && HelperOK(cfg, h) && h.stage == Open && SkipsItem(cfg, h, h.pos)
    ensures HelperOK(cfg, Passed(h))
  {
    if h.pos + 1 < Len(cfg) {
      TableAtMonotone(cfg, h.pos, h.pos + 1);
    }
  }

  lemma SkipKeepsHelper(cfg: Config, h: Helper)
    requires ValidConfig(cfg) && HelperOK(cfg, h) && h.stage == Open && !SkipsItem(cfg, h, h.pos)
    requires TableAt(cfg, h.pos) in h.skipFiles
    ensures HelperOK(cfg, SkipFrom(cfg, h))
  {
    var t, h' := TableAt(cfg, h.pos), SkipFrom(cfg, h);
    TableAtBounds(cfg, h.pos);
    if h.pos + 1 < Len(cfg) {
      TableAtMonotone(cfg, h.pos, h.pos + 1);
    }
    forall i: nat | h.pos <= i < Len(cfg)
      ensures !SkipsItem(cfg, h, i)
      ensures TableAt(cfg, i) == t && Roomy(cfg) ==> i < h.pos + cfg.queue
    {
      TableAtMonotone(cfg, h.pos, i);
      TableAtBounds(cfg, i);
    }
  }

  lemma HelperMoveKeepsInv(cfg: Config, st: State, s: nat, h': Helper, st': State)
    requires ValidConfig(cfg) && Inv(cfg, st) && s < cfg.segments && st' == SetHelper(st, s, h')
    requires HelperOK(cfg, h') && st.helpers[s].pos < Len(cfg)
    requires h'.skipFiles == st.helpers[s].skipFiles
    requires Through(h') == Through(st.helpers[s])
             || (Through(st.helpers[s]) == st.helpers[s].pos && Through(h') == st.helpers[s].pos + 1
                 && (TableAt(cfg, st.helpers[s].pos) in h'.skipFiles || FailingAt(cfg, st, st.helpers[s].pos)))
    requires h'.stage == Close ==> h'.pos == st.helpers[s].pos && HasReader(cfg, st, s)
    ensures Inv(cfg, st')
  {
    forall r | 0 <= r < cfg.segments
      ensures ServedOK(cfg, st', r)
    {
      if r != s || h'.stage == Close {
        SameWorkersKeepReaders(cfg, st, st', r);
      }
    }
    forall w | 0 <= w < cfg.conns
      ensures PairOK(cfg, h', s, w, st.workers[w])
    {
      assert PairOK(cfg, st.helpers[s], s, w, st.workers[w]);
      if FailingAt(cfg, st, st.helpers[s].pos) {
        PastFailing(cfg, st, s, h', w);
      } else {
        PastSkipped(cfg, st.helpers[s], h', s, w, st.workers[w]);
      }
    }
    forall v | 0 <= v < cfg.conns
      ensures CopiedOK(cfg, st', v)
    {
      SkippedGrows(st, st');
      CopiedKept(cfg, st, st', v);
    }
  }

  lemma PastFailing(cfg: Config, st: State, s: nat, h': Helper, w: nat)
    requires ValidConfig(cfg) && Inv(cfg, st) && s < cfg.segments && w < cfg.conns
    requires h'.skipFiles == st.helpers[s].skipFiles && FailingAt(cfg, st, st.helpers[s].pos)
    requires Through(h') == Through(st.helpers[s])
             || (Through(st.helpers[s]) == st.helpers[s].pos && Through(h') == st.helpers[s].pos + 1)
    ensures PairOK(cfg, h', s, w, st.workers[w])
  {
    var pos := st.helpers[s].pos;
    var v :| 0 <= v < |st.workers| && Active(cfg, st.workers[v]) && st.workers[v].failing
             && Cur(cfg, st.workers[v]) == pos;
    assert WorkerOK(cfg, v, st.workers[v]);
    assert PairOK(cfg, st.helpers[s], s, w, st.workers[w]);
    forall t: nat, b: nat | OwnItem(cfg, w, t, b) && Start(cfg, t) + b == pos
      ensures v == w
    {
      ItemsByTable(cfg, t, b, st.workers[v].table, st.workers[v].batch);
    }
  }

  lemma ClosePair(cfg: Config, h: Helper, h': Helper, s: nat, w: nat, v: nat, wk: Worker, wk': Worker, reading: Worker)
    requires cfg.conns > 0 && PairOK(cfg, h, s, v, wk) && h'.skipFiles == h.skipFiles
    requires Active(cfg, reading) && reading.batch < BatchesOf(cfg, reading.table) && !reading.failing
    requires Owner(cfg.conns, reading.table) == w
    requires Cur(cfg, reading) == Through(h) && Through(h') == Through(h) + 1
    requires if v == w
             then wk == reading && wk'.table == wk.table && wk'.batch == wk.batch && !wk'.failing && FinishedOn(wk', s)
             else wk' == wk
    ensures PairOK(cfg, h', s, v, wk')
  {
    forall t: nat, b: nat | OwnItem(cfg, v, t, b) && t !in h.skipFiles
      ensures (wk'.failing && Start(cfg, t) + b == Cur(cfg, wk'))
              || (Start(cfg, t) + b < Through(h') <==> PastOn(cfg, wk', s, Start(cfg, t) + b))
    {
      if Start(cfg, t) + b == Through(h) {
        ItemsByTable(cfg, t, b, reading.table, reading.batch);
      }
    }
  }

  lemma ClosedKeepsInv(cfg: Config, st: State, s: nat, w: nat, st': State)
    requires ValidConfig(cfg) && Inv(cfg, st) && s < cfg.segments && st.helpers[s].stage == Close
    requires ReaderIs(cfg, st, w, s, st.helpers[s].pos, Attached) && st' == Closed(st, s, w)
    ensures Inv(cfg, st')
  {
    assert HelperOK(cfg, st.helpers[s]) && WorkerOK(cfg, w, st.workers[w]);
    assert HelperOK(cfg, st'.helpers[s]);
    forall r | 0 <= r < cfg.segments
      ensures ServedOK(cfg, st', r)
    {
      if r != s {
        OtherSegmentServed(cfg, st, s, w, st', r);
      }
    }
    forall r, v | 0 <= r < cfg.segments && 0 <= v < cfg.conns
      ensures PairOK(cfg, st'.helpers[r], r, v, st'.workers[v])
    {
      assert PairOK(cfg, st.helpers[r], r, v, st.workers[v]);
      if r == s {
        ClosePair(cfg, st.helpers[s], st'.helpers[s], s, w, v, st.workers[v], st'.workers[v], st.workers[w]);
      } else if v == w {
        SameProgress(cfg, st.helpers[r], r, w, st.workers[w], st'.workers[w]);
      }
    }
    forall v | 0 <= v < cfg.conns
      ensures CopiedOK(cfg, st', v)
    {
      SkippedGrows(st, st');
      CopiedKept(cfg, st, st', v);
    }
  }

  lemma OtherSegmentServed(cfg: Config, st: State, s: nat, w: nat, st': State, r: nat)
    requires ValidConfig(cfg) && Inv(cfg, st) && s < cfg.segments && r < cfg.segments && r != s
    requires ReaderIs(cfg, st, w, s, st.helpers[s].pos, Attached) && st' == Closed(st, s, w)
    ensures ServedOK(cfg, st', r)
  {
    var pos := st.helpers[r].pos;
    assert WorkerOK(cfg, w, st.workers[w]);
    if HasReader(cfg, st, r) {
      var v :| ReaderIs(cfg, st, v, r, pos, Attached);
      assert ReaderIs(cfg, st', v, r, pos, Attached);
    }
    if FailingAt(cfg, st, pos) {
      var v :| 0 <= v < |st.workers| && Active(cfg, st.workers[v]) && st.workers[v].failing
               && Cur(cfg, st.workers[v]) == pos;
      assert st'.workers[v] == st.workers[v];
    }
    ServedKept(cfg, st, st', r);
  }

  lemma HelperStepKeepsInv(cfg: Config, st: State, m: Move, st': State)
    requires m.MakePipe? || m.CopyData? || m.CloseWriter? || m.DropPipe? || m.Skip? || m.Pass?
    requires ValidConfig(cfg) && Inv(cfg, st) && HelperStep(cfg, st, m, st')
    ensures Inv(cfg, st')
  {
    var s, h := m.s, st.helpers[m.s];
    assert HelperOK(cfg, h) && ServedOK(cfg, st, s);
    match m
    case MakePipe(_) =>
      MakeKeepsHelper(cfg, h);
      HelperMoveKeepsInv(cfg, st, s, Made(cfg, h), st');
    case CopyData(_) =>
      HelperMoveKeepsInv(cfg, st, s, h.(stage := Close), st');
    case CloseWriter(_) =>
      if HasReader(cfg, st, s) {
        var w :| ReaderIs(cfg, st, w, s, h.pos, Attached) && st' == Closed(st, s, w);
        ClosedKeepsInv(cfg, st, s, w, st');
      } else {
        HelperMoveKeepsInv(cfg, st, s, h.(stage := Delete), st');
      }
    case DropPipe(_) =>
      DropKeepsHelper(cfg, h);
      HelperMoveKeepsInv(cfg, st, s, Dropped(h), st');
    case Skip(_) =>
      SkipKeepsHelper(cfg, h);
      HelperMoveKeepsInv(cfg, st, s, SkipFrom(cfg, h), st');
    case Pass(_) =>
      PassKeepsHelper(cfg, h);
      HelperMoveKeepsInv(cfg, st, s, Passed(h), st');
  }

  lemma StepKeepsInv(cfg: Config, st: State, m: Move, st': State)
    requires ValidConfig(cfg) && Inv(cfg, st) && Step(cfg, st, m, st')
    ensures Inv(cfg, st')
  {
    match m
    case Issue(w) =>
      assert WorkerOK(cfg, w, st.workers[w]);
      StayKeepsInv(cfg, st, w, st'.workers[w], st');
    case Attach(w, s) =>
      assert WorkerOK(cfg, w, st.workers[w]);
      StayKeepsInv(cfg, st, w, st'.workers[w], st');
    case Fail(w) =>
      assert WorkerOK(cfg, w, st.workers[w]);
      StayKeepsInv(cfg, st, w, st'.workers[w], st');
    case Touch(w, s) => TouchKeepsInv(cfg, st, w, s, st');
    case GiveUp(w) => GiveUpKeepsInv(cfg, st, w, st');
    case Complete(w) => CompleteKeepsInv(cfg, st, w, st');
    case _ => HelperStepKeepsInv(cfg, st, m, st');
  }

  lemma {:induction false} RunKeepsInv(cfg: Config, run: seq<State>, i: nat)
    requires ValidConfig(cfg) && IsRun(cfg, run) && i < |run|
    ensures Inv(cfg, run[i])
  {
    if i == 0 {
      InitInv(cfg);
    } else {
      RunKeepsInv(cfg, run, i - 1);
      assert CanStep(cfg, run[i - 1], run[i]);
      var m :| Step(cfg, run[i - 1], m, run[i]);
      StepKeepsInv(cfg, run[i - 1], m, run[i]);
    }
  }

  // ----- No run is ever stuck -----

  /**
   * Every worker has gone past the last table, and every helper through its list, with no pipe left if skips reach all
   * batches of a table. Every item has been copied, unless its table was given up.
   */
  ghost predicate Done(cfg: Config, st: State) {
    && (forall w | 0 <= w < |st.workers| :: !Active(cfg, st.workers[w]))
    && (forall h | h in st.helpers :: h.pos == Len(cfg) && (Roomy(cfg) ==> h.live == {}))
    && forall i: nat | i < Len(cfg) :: i in st.copied || SkippedEverywhere(st, TableAt(cfg, i))
  }

  lemma InactiveAtEnd(cfg: Config, wk: Worker)
    requires !Active(cfg, wk)
    ensures Start(cfg, wk.table) == Len(cfg)
  {
    StartMonotone(cfg, |cfg.replicated|, wk.table);
  }

  /** The worker whose item a helper is at, if its table has no skip file; it has not gone past that item. */
  lemma Awaited(cfg: Config, st: State, s: nat) returns (w: nat)
    requires ValidConfig(cfg) && Inv(cfg, st) && s < cfg.segments && Through(st.helpers[s]) < Len(cfg)
    requires TableAt(cfg, Through(st.helpers[s])) !in st.helpers[s].skipFiles
    ensures w < cfg.conns && Active(cfg, st.workers[w]) && Cur(cfg, st.workers[w]) <= Through(st.helpers[s])
    ensures Cur(cfg, st.workers[w]) == Through(st.helpers[s]) && !st.workers[w].failing ==>
              !FinishedOn(st.workers[w], s)
  {
    var t, b := Locate(cfg, |cfg.replicated|, Through(st.helpers[s]));
    TableAtIs(cfg, t, b);
    w := Owner(cfg.conns, t);
    assert OwnItem(cfg, w, t, b);
    assert PairOK(cfg, st.helpers[s], s, w, st.workers[w]);
    assert WorkerOK(cfg, w, st.workers[w]);
    if !Active(cfg, st.workers[w]) {
      InactiveAtEnd(cfg, st.workers[w]);
    }
  }

  /** A worker whose COPY has not failed has not been passed by the helpers it still waits for. */
  lemma WaitsAhead(cfg: Config, st: State, w: nat, s: nat)
    requires ValidConfig(cfg) && Inv(cfg, st) && s < cfg.segments && w < cfg.conns && Active(cfg, st.workers[w])
    requires !st.workers[w].failing
    ensures Cur(cfg, st.workers[w]) < Len(cfg)
    ensures TableAt(cfg, Cur(cfg, st.workers[w])) == st.workers[w].table
    ensures st.workers[w].table !in st.helpers[s].skipFiles
    ensures Through(st.helpers[s]) <= Cur(cfg, st.workers[w]) <==> !FinishedOn(st.workers[w], s)
  {
    var wk := st.workers[w];
    assert WorkerOK(cfg, w, wk);
    ActiveBelowLen(cfg, wk);
    TableAtIs(cfg, wk.table, wk.batch);
    assert OwnItem(cfg, w, wk.table, wk.batch);
    assert PairOK(cfg, st.helpers[s], s, w, wk);
  }

  /** Every worker that is not through is waiting for some segment. */
  ghost predicate AllWaiting(cfg: Config, st: State) {
    forall w | 0 <= w < |st.workers| && Active(cfg, st.workers[w]) ::
      st.workers[w].copying.Some? && !AllFinished(st.workers[w].copying.value)
  }

  /** Following the segments that hold workers up, always to a helper that is further behind, finds a move. */
  lemma {:induction false} HelperCanMove(cfg: Config, st: State, s: nat) returns (m: Move, st': State)
    requires ValidConfig(cfg) && Inv(cfg, st) && AllWaiting(cfg, st)
    requires s < cfg.segments && st.helpers[s].pos < Len(cfg)
    ensures Step(cfg, st, m, st') && !m.Fail?
    decreases Through(st.helpers[s])
  {
    var h := st.helpers[s];
    assert HelperOK(cfg, h) && ServedOK(cfg, st, s);
    match h.stage
    case Create => m, st' := MakePipe(s), SetHelper(st, s, Made(cfg, h));
    case Delete => m, st' := DropPipe(s), SetHelper(st, s, Dropped(h));
    case Close =>
      m := CloseWriter(s);
      if HasReader(cfg, st, s) {
        var w: nat :| ReaderIs(cfg, st, w, s, h.pos, Attached);
        st' := Closed(st, s, w);
      } else {
        st' := SetHelper(st, s, h.(stage := Delete));
      }
    case Open =>
      if SkipsItem(cfg, h, h.pos) {
        m, st' := Pass(s), SetHelper(st, s, Passed(h));
      } else if HasReader(cfg, st, s) {
        m, st' := CopyData(s), SetHelper(st, s, h.(stage := Close));
      } else if TableAt(cfg, h.pos) in h.skipFiles {
        m, st' := Skip(s), SetHelper(st, s, SkipFrom(cfg, h));
      } else {
        var w := Awaited(cfg, st, s);
        var wk := st.workers[w];
        assert WorkerOK(cfg, w, wk) && !AllFinished(wk.copying.value);
        if Cur(cfg, wk) < h.pos {
          var r :| 0 <= r < |wk.copying.value| && wk.copying.value[r] != Finished;
          WaitsAhead(cfg, st, w, r);
          m, st' := HelperCanMove(cfg, st, r);
        } else {
          NotAttached(cfg, st, w, s);
          m, st' := Attach(w, s), SetReader(st, w, s, Attached);
        }
      }
  }

  lemma NotAttached(cfg: Config, st: State, w: nat, s: nat)
    requires ValidConfig(cfg) && Inv(cfg, st) && s < cfg.segments && w < cfg.conns && Active(cfg, st.workers[w])
    requires st.workers[w].copying.Some? && Cur(cfg, st.workers[w]) == st.helpers[s].pos
    requires !HasReader(cfg, st, s) && !FinishedOn(st.workers[w], s)
    ensures ReaderIs(cfg, st, w, s, st.helpers[s].pos, Waiting)
  {
    assert WorkerOK(cfg, w, st.workers[w]);
    assert !ReaderIs(cfg, st, w, s, st.helpers[s].pos, Attached);
  }

  /** Whatever has failed so far, the run can go on without another failure. */
  lemma NeverStuck(cfg: Config, st: State) returns (m: Move, st': State)
    requires ValidConfig(cfg) && Inv(cfg, st) && !Done(cfg, st)
    ensures Step(cfg, st, m, st') && !m.Fail?
  {
    if w: nat :| w < |st.workers| && Active(cfg, st.workers[w])
                 && !(st.workers[w].copying.Some? && !AllFinished(st.workers[w].copying.value)) {
      m, st' := WorkerCanMove(cfg, st, w);
    } else if w: nat :| w < |st.workers| && Active(cfg, st.workers[w]) {
      assert WorkerOK(cfg, w, st.workers[w]) && !AllFinished(st.workers[w].copying.value);
      var s :| 0 <= s < |st.workers[w].copying.value| && st.workers[w].copying.value[s] != Finished;
      WaitsAhead(cfg, st, w, s);
      m, st' := HelperCanMove(cfg, st, s);
    } else {
      AllCopied(cfg, st);
      var h :| h in st.helpers && !(h.pos == Len(cfg) && (Roomy(cfg) ==> h.live == {}));
      var s :| 0 <= s < |st.helpers| && st.helpers[s] == h;
      assert HelperOK(cfg, h);
      m, st' := HelperCanMove(cfg, st, s);
    }
  }

  /** A worker that waits for no segment can issue its COPY, go on, or leave skip files. */
  lemma WorkerCanMove(cfg: Config, st: State, w: nat) returns (m: Move, st': State)
    requires ValidConfig(cfg) && Inv(cfg, st) && w < cfg.conns && Active(cfg, st.workers[w])
    requires !(st.workers[w].copying.Some? && !AllFinished(st.workers[w].copying.value))
    ensures Step(cfg, st, m, st') && !m.Fail?
  {
    var wk := st.workers[w];
    assert WorkerOK(cfg, w, wk);
    if wk.copying.Some? {
      m, st' := Complete(w), SetWorker(st, w, AfterCopy(cfg, wk)).(copied := st.copied + {Cur(cfg, wk)});
    } else if !wk.failing {
      m, st' := Issue(w), SetWorker(st, w, wk.(copying := Some(seq(cfg.segments, s => Waiting))));
    } else if SkippedEverywhere(st, wk.table) {
      m, st' := GiveUp(w), SetWorker(st, w, AfterTable(cfg, wk));
    } else {
      var h :| h in st.helpers && wk.table !in h.skipFiles;
      var s :| 0 <= s < |st.helpers| && st.helpers[s] == h;
      m, st' := Touch(w, s), Touched(st, s, wk.table);
    }
  }

  lemma AllCopied(cfg: Config, st: State)
    requires ValidConfig(cfg) && Inv(cfg, st) && forall w | 0 <= w < cfg.conns :: !Active(cfg, st.workers[w])
    ensures forall i: nat | i < Len(cfg) :: i in st.copied || SkippedEverywhere(st, TableAt(cfg, i))
  {
    forall i: nat | i < Len(cfg)
      ensures i in st.copied || SkippedEverywhere(st, TableAt(cfg, i))
    {
      var t, b := Locate(cfg, |cfg.replicated|, i);
      TableAtIs(cfg, t, b);
      var w := Owner(cfg.conns, t);
      assert CopiedOK(cfg, st, w) && WorkerOK(cfg, w, st.workers[w]);
      InactiveAtEnd(cfg, st.workers[w]);
      assert OwnItem(cfg, w, t, b);
    }
  }

  // ----- Every run ends -----

  function ReaderWork(r: Reader): int {
    match r case Waiting => 2 case Attached => 1 case Finished => 0
  }

  ghost function WorkerWork(cfg: Config, wk: Worker): int {
    (Len(cfg) - Cur(cfg, wk)) * (2 * cfg.segments + 3)
    + if wk.failing then 0
      else if wk.copying.Some? then 1 + SumTo(wk.copying.value, ReaderWork, |wk.copying.value|)
      else 2 * cfg.segments + 2
  }

  ghost function HelperWork(cfg: Config, h: Helper): int {
    4 * (Len(cfg) - h.pos) - (match h.stage case Create => 0 case Open => 1 case Close => 2 case Delete => 3)
    + |cfg.replicated| - |h.skipFiles|
  }

  ghost function Work(cfg: Config, st: State): int {
    SumTo(st.helpers, h => HelperWork(cfg, h), |st.helpers|) +
      SumTo(st.workers, wk => WorkerWork(cfg, wk), |st.workers|)
  }

  lemma WorkersWork(cfg: Config, st: State, w: nat, wk: Worker, copied: set<nat>)
    requires w < |st.workers|
    ensures Work(cfg, SetWorker(st, w, wk).(copied := copied)) ==
            Work(cfg, st) + WorkerWork(cfg, wk) - WorkerWork(cfg, st.workers[w])
  {
    SumToUpdate(st.workers, (wk: Worker) => WorkerWork(cfg, wk), |st.workers|, w, wk);
  }

  lemma HelpersWork(cfg: Config, st: State, s: nat, h: Helper)
    requires s < |st.helpers|
    ensures Work(cfg, SetHelper(st, s, h)) == Work(cfg, st) + HelperWork(cfg, h) - HelperWork(cfg, st.helpers[s])
  {
    SumToUpdate(st.helpers, (h: Helper) => HelperWork(cfg, h), |st.helpers|, s, h);
  }

  lemma ReadersWork(cfg: Config, st: State, w: nat, s: nat, r: Reader)
    requires w < |st.workers| && st.workers[w].copying.Some? && s < |st.workers[w].copying.value|
    requires !st.workers[w].failing
    ensures Work(cfg, SetReader(st, w, s, r)) ==
            Work(cfg, st) + ReaderWork(r) - ReaderWork(st.workers[w].copying.value[s])
  {
    var wk := st.workers[w];
    var readers := wk.copying.value;
    WorkersWork(cfg, st, w, wk.(copying := Some(readers[s := r])), st.copied);
    SumToUpdate(readers, ReaderWork, |readers|, s, r);
  }

  /** Going on leaves less to do even though the worker starts over with its next item. */
  lemma MoveOnWorks(cfg: Config, wk: Worker, wk': Worker)
    requires Cur(cfg, wk') > Cur(cfg, wk) && wk'.copying == None && !wk'.failing
    ensures WorkerWork(cfg, wk') < WorkerWork(cfg, wk)
  {
    TimesMonotone(Len(cfg) - Cur(cfg, wk'), Len(cfg) - Cur(cfg, wk) - 1, 2 * cfg.segments + 3);
    if wk.copying.Some? {
      ReadersWorkBounds(wk.copying.value);
    }
  }

  lemma ReadersWorkBounds(readers: seq<Reader>)
    ensures 0 <= SumTo(readers, ReaderWork, |readers|) <= 2 * |readers|
  {
    SumToWithin(readers, ReaderWork, |readers|, 0, 2);
  }

  lemma CloseWorks(cfg: Config, st: State, s: nat, st': State)
    requires ValidConfig(cfg) && Inv(cfg, st) && HelperStep(cfg, st, CloseWriter(s), st')
    ensures Work(cfg, st') < Work(cfg, st)
  {
    if HasReader(cfg, st, s) {
      var w: nat :| ReaderIs(cfg, st, w, s, st.helpers[s].pos, Attached) && st' == Closed(st, s, w);
      assert WorkerOK(cfg, w, st.workers[w]);
      ClosedWorks(cfg, st, s, w);
    } else {
      HelpersWork(cfg, st, s, st.helpers[s].(stage := Delete));
    }
  }

  lemma ClosedWorks(cfg: Config, st: State, s: nat, w: nat)
    requires s < |st.helpers| && st.helpers[s].stage == Close && w < |st.workers| && !st.workers[w].failing
    requires ReaderIs(cfg, st, w, s, st.helpers[s].pos, Attached)
    ensures Work(cfg, Closed(st, s, w)) < Work(cfg, st)
  {
    var h := st.helpers[s].(stage := Delete);
    HelpersWork(cfg, st, s, h);
    ReadersWork(cfg, SetHelper(st, s, h), w, s, Finished);
  }

  lemma TouchWorks(cfg: Config, st: State, w: nat, s: nat, st': State)
    requires ValidConfig(cfg) && Inv(cfg, st) && WorkerStep(cfg, st, Touch(w, s), st')
    ensures Work(cfg, st') < Work(cfg, st)
  {
    HelpersWork(cfg, st, s, st'.helpers[s]);
  }

  lemma IssueWorks(cfg: Config, wk: Worker, wk': Worker)
    requires wk.copying == None && !wk.failing
    requires wk' == wk.(copying := Some(seq(cfg.segments, s => Waiting)))
    ensures WorkerWork(cfg, wk') < WorkerWork(cfg, wk)
  {
    ReadersWorkBounds(wk'.copying.value);
  }

  lemma FailWorks(cfg: Config, wk: Worker)
    requires wk.copying.Some? && !wk.failing
    ensures WorkerWork(cfg, wk.(copying := None, failing := true)) < WorkerWork(cfg, wk)
  {
    ReadersWorkBounds(wk.copying.value);
  }

  lemma WorkerStepWorks(cfg: Config, st: State, m: Move, st': State)
    requires m.Issue? || m.Complete? || m.Fail? || m.GiveUp?
    requires ValidConfig(cfg) && Inv(cfg, st) && WorkerStep(cfg, st, m, st')
    ensures Work(cfg, st') < Work(cfg, st)
  {
    var w, wk := m.w, st.workers[m.w];
    assert WorkerOK(cfg, w, wk);
    WorkersWork(cfg, st, w, st'.workers[w], st'.copied);
    match m
    case Issue(_) => IssueWorks(cfg, wk, st'.workers[w]);
    case Complete(_) =>
      AfterCopyMoves(cfg, w, wk);
      MoveOnWorks(cfg, wk, AfterCopy(cfg, wk));
    case Fail(_) => FailWorks(cfg, wk);
    case GiveUp(_) =>
      AfterTableMoves(cfg, w, wk);
      MoveOnWorks(cfg, wk, AfterTable(cfg, wk));
  }

  lemma StepWorks(cfg: Config, st: State, m: Move, st': State)
    requires ValidConfig(cfg) && Inv(cfg, st) && Step(cfg, st, m, st')
    ensures Work(cfg, st') < Work(cfg, st)
  {
    match m
    case Touch(w, s) => TouchWorks(cfg, st, w, s, st');
    case Attach(w, s) =>
      assert WorkerOK(cfg, w, st.workers[w]);
      ReadersWork(cfg, st, w, s, Attached);
    case CloseWriter(s) => CloseWorks(cfg, st, s, st');
    case MakePipe(s) => HelpersWork(cfg, st, s, st'.helpers[s]);
    case CopyData(s) => HelpersWork(cfg, st, s, st'.helpers[s]);
    case DropPipe(s) => HelpersWork(cfg, st, s, st'.helpers[s]);
    case Skip(s) => HelpersWork(cfg, st, s, st'.helpers[s]);
    case Pass(s) => HelpersWork(cfg, st, s, st'.helpers[s]);
    case _ => WorkerStepWorks(cfg, st, m, st');
  }

  lemma WorkLeft(cfg: Config, st: State)
    requires ValidConfig(cfg) && Inv(cfg, st)
    ensures Work(cfg, st) >= 0
  {
    forall s | 0 <= s < |st.helpers|
      ensures 0 <= HelperWork(cfg, st.helpers[s]) <= 4 * Len(cfg) + |cfg.replicated|
    {
      var h := st.helpers[s];
      assert HelperOK(cfg, h);
      forall t | t in h.skipFiles
        ensures t < |cfg.replicated|
      {
        assert PairOK(cfg, h, s, Owner(cfg.conns, t), st.workers[Owner(cfg.conns, t)]);
      }
      SubsetSize(h.skipFiles, Below(|cfg.replicated|));
    }
    SumToWithin(st.helpers, h => HelperWork(cfg, h), |st.helpers|, 0, 4 * Len(cfg) + |cfg.replicated|);
    var top := Len(cfg) * (2 * cfg.segments + 3) + 2 * cfg.segments + 2;
    forall w | 0 <= w < |st.workers|
      ensures 0 <= WorkerWork(cfg, st.workers[w]) <= top
    {
      WorkerWorkBounds(cfg, w, st.workers[w]);
    }
    SumToWithin(st.workers, wk => WorkerWork(cfg, wk), |st.workers|, 0, top);
  }

  lemma WorkerWorkBounds(cfg: Config, w: nat, wk: Worker)
    requires ValidConfig(cfg) && WorkerOK(cfg, w, wk)
    ensures 0 <= WorkerWork(cfg, wk) <= Len(cfg) * (2 * cfg.segments + 3) + 2 * cfg.segments + 2
  {
    if Active(cfg, wk) {
      ActiveBelowLen(cfg, wk);
    } else {
      InactiveAtEnd(cfg, wk);
    }
    TimesMonotone(0, Len(cfg) - Cur(cfg, wk), 2 * cfg.segments + 3);
    TimesMonotone(Len(cfg) - Cur(cfg, wk), Len(cfg), 2 * cfg.segments + 3);
    if wk.copying.Some? {
      ReadersWorkBounds(wk.copying.value);
    }
  }

  /** Every step of a run leaves less work, and never a negative amount. */
  lemma RunWorks(cfg: Config, run: seq<State>, i: nat)
    requires ValidConfig(cfg) && IsRun(cfg, run) && i < |run|
    ensures Work(cfg, run[i]) >= 0
    ensures i > 0 ==> Work(cfg, run[i]) <= Work(cfg, run[i - 1]) - 1
  {
    RunKeepsInv(cfg, run, i);
    WorkLeft(cfg, run[i]);
    if i > 0 {
      RunKeepsInv(cfg, run, i - 1);
      assert CanStep(cfg, run[i - 1], run[i]);
      var m :| Step(cfg, run[i - 1], m, run[i]);
      StepWorks(cfg, run[i - 1], m, run[i]);
    }
  }

  /** No run is longer than the work there is at its start. */
  lemma {:induction false} RunsEnd(cfg: Config, run: seq<State>, i: nat)
    requires ValidConfig(cfg) && IsRun(cfg, run) && i < |run|
    ensures 0 <= Work(cfg, run[i]) <= Work(cfg, run[0]) - i
  {
    RunWorks(cfg, run, i);
    if i > 0 {
      RunsEnd(cfg, run, i - 1);
    }
  }

  /** Nothing can happen any more but that a COPY fails. */
  ghost predicate Blocked(cfg: Config, st: State) {
    forall m, next | Step(cfg, st, m, next) :: m.Fail?
  }

  /**
   * The restore cannot deadlock, whichever COPYs fail and whenever they do: a run that can go on only by another
   * failure has taken every worker through all of its tables and every helper through its whole list.
   */
  lemma EveryRunCompletes(cfg: Config, run: seq<State>)
    requires ValidConfig(cfg) && IsRun(cfg, run)
    ensures |run| <= Work(cfg, run[0]) + 1
    ensures Blocked(cfg, run[|run| - 1]) ==> Done(cfg, run[|run| - 1])
  {
    var last := |run| - 1;
    var st := run[last];
    RunsEnd(cfg, run, last);
    RunKeepsInv(cfg, run, last);
    if Blocked(cfg, st) && !Done(cfg, st) {
      var m, next := NeverStuck(cfg, st);
      assert false;
    }
  }

  /** One of the COPYs of table t has failed in the course of the run. */
  ghost predicate HasFailed(run: seq<State>, t: nat) {
    exists j, w :: 0 <= j < |run| && FailsOn(run[j], w, t)
  }

  predicate FailsOn(st: State, w: nat, t: nat) {
    w < |st.workers| && st.workers[w].failing && st.workers[w].table == t
  }

  /** Only a table one of whose COPYs has failed is ever skipped. */
  lemma {:induction false} SkippedOnlyIfFailed(cfg: Config, run: seq<State>, i: nat, s: nat, t: nat)
    requires ValidConfig(cfg) && IsRun(cfg, run) && i < |run| && s < |run[i].helpers|
    requires t in run[i].helpers[s].skipFiles
    ensures HasFailed(run, t)
  {
    if i > 0 {
      RunSkipFile(cfg, run, i, s, t);
      if !HasFailed(run, t) {
        SkippedOnlyIfFailed(cfg, run, i - 1, s, t);
      }
    }
  }

  /** A skip file in a run was there before, or has been left by a worker whose COPY failed. */
  lemma RunSkipFile(cfg: Config, run: seq<State>, i: nat, s: nat, t: nat)
    requires ValidConfig(cfg) && IsRun(cfg, run) && 0 < i < |run| && s < |run[i].helpers|
    requires t in run[i].helpers[s].skipFiles
    ensures HasFailed(run, t) || (s < |run[i - 1].helpers| && t in run[i - 1].helpers[s].skipFiles)
  {
    RunKeepsInv(cfg, run, i);
    RunKeepsInv(cfg, run, i - 1);
    assert CanStep(cfg, run[i - 1], run[i]);
    var m :| Step(cfg, run[i - 1], m, run[i]);
    if t !in run[i - 1].helpers[s].skipFiles {
      SkipFileFrom(cfg, run[i - 1], m, run[i], s, t);
    }
  }

  lemma SkipFileFrom(cfg: Config, st: State, m: Move, st': State, s: nat, t: nat)
    requires cfg.conns > 0 && Inv(cfg, st) && Step(cfg, st, m, st') && s < |st.helpers| == |st'.helpers|
    requires t in st'.helpers[s].skipFiles && t !in st.helpers[s].skipFiles
    ensures m.Touch? && FailsOn(st, m.w, t)
  {
  }

  /** In a complete run every item of a table none of whose COPYs has failed is copied. */
  lemma OthersAreCopied(cfg: Config, run: seq<State>, i: nat)
    requires ValidConfig(cfg) && IsRun(cfg, run) && Blocked(cfg, run[|run| - 1])
    requires i < Len(cfg) && !HasFailed(run, TableAt(cfg, i))
    ensures i in run[|run| - 1].copied
  {
    var last := |run| - 1;
    EveryRunCompletes(cfg, run);
    RunKeepsInv(cfg, run, last);
    if SkippedEverywhere(run[last], TableAt(cfg, i)) {
      assert run[last].helpers[0] in run[last].helpers;
      SkippedOnlyIfFailed(cfg, run, last, 0, TableAt(cfg, i));
    }
  }
}

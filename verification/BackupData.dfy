/**
 * The parallel backup of table data: workers take tables from a queue and leave those they cannot lock to
 * worker 0, which goes through all tables in order and copies the deferred ones.
 */
module BackupData {
  import opened Collections

  /** Tables are numbered in the order of the queue; worker 0 exists besides the given number of workers. */
  datatype Config = Config(tables: nat, workers: nat, snapshot: bool)

  datatype Status = Unknown | Deferred | Complete

  /**
   * A table's entry in the map of states, with a record of the run: the worker that took it from the queue, the worker
   * that has it right now, the connections that started a COPY of it, what its COPYs returned, whether its worker could
   * not lock it, and whether it was left in the queue until the main goroutine deferred it.
   */
  datatype Table = Table(
    status: Status, taker: Option<nat>, holder: Option<nat>, started: seq<nat>, returned: seq<nat>, lockFailed: bool,
    left: bool)

  datatype Worker = Idle | Locking(t: nat) | Copying(t: nat) | Exited

  /** What the main goroutine is doing: waiting for the workers, marking tables no one took, waiting for worker 0. */
  datatype Phase = WaitWorkers | Marking(next: nat) | WaitDeferred | Finished

  /**
   * next is the head of the queue; workers has connections 1 and up. Worker 0 is at table pos and may be copying it.
   * rowsCopied has the map of each connection.
   */
  datatype State = State(
    tables: seq<Table>, next: nat, workers: seq<Worker>, pos: nat, copying: bool, phase: Phase,
    rowsCopied: seq<map<nat, nat>>)

  function Init(cfg: Config): State {
    State(seq(cfg.tables, i => Table(Unknown, None, None, [], [], false, false)), 0, seq(cfg.workers, i => Idle), 0,
          false, WaitWorkers, seq(cfg.workers + 1, i => map[]))
  }

  datatype Move =
    | Take(w: nat)                  // an idle worker takes the next table of the queue
    | Leave(w: nat)                 // an idle worker finds the queue closed and empty
    | Lock(w: nat)                  // a worker locks its table and starts the COPY
    | GiveUp(w: nat)                // a worker cannot lock its table: it is deferred
    | Copied(w: nat, rows: nat)     // a worker's COPY returns
    | Pass                          // worker 0 finds its table complete
    | Start                         // worker 0 starts the COPY of a deferred table
    | CopiedDeferred(rows: nat)     // worker 0's COPY returns
    | Proceed                       // the main goroutine goes on to its next phase, or marks a table

  predicate CanMove(cfg: Config, st: State, m: Move)
    requires Shape(cfg, st)
  {
    match m
    case Take(w) => w < cfg.workers && st.workers[w] == Idle && st.next < cfg.tables
    case Leave(w) => w < cfg.workers && st.workers[w] == Idle && st.next == cfg.tables
    case Lock(w) => w < cfg.workers && st.workers[w].Locking?
    case GiveUp(w) => w < cfg.workers && st.workers[w].Locking?
    case Copied(w, _) => w < cfg.workers && st.workers[w].Copying?
    case Pass => st.pos < cfg.tables && !st.copying && st.tables[st.pos].status == Complete
    case Start => st.pos < cfg.tables && !st.copying && st.tables[st.pos].status == Deferred
    case CopiedDeferred(_) => st.copying
    case Proceed =>
      match st.phase
      case WaitWorkers => forall w | 0 <= w < cfg.workers :: st.workers[w] == Exited
      case Marking(_) => true
      case WaitDeferred => st.pos == cfg.tables
      case Finished => false
  }

  /** The state after a move. */
  function Next(cfg: Config, st: State, m: Move): State
    requires Shape(cfg, st) && CanMove(cfg, st, m)
  {
    match m
    case Take(w) =>
      SetTable(st, st.next, st.tables[st.next].(taker := Some(w), holder := Some(w)))
      .(next := st.next + 1, workers := st.workers[w := Locking(st.next)])
    case Leave(w) => st.(workers := st.workers[w := Exited])
    case Lock(w) =>
      var t := st.workers[w].t;
      SetTable(st, t, st.tables[t].(started := st.tables[t].started + [w + 1])).(workers := st.workers[w := Copying(t)])
    case GiveUp(w) =>
      var t := st.workers[w].t;
      SetTable(st, t, st.tables[t].(status := Deferred, lockFailed := true, holder := None))
      .(workers := st.workers[w := if cfg.snapshot then Idle else Exited])
    case Copied(w, rows) => Recorded(st, w + 1, st.workers[w].t, rows).(workers := st.workers[w := Idle])
    case Pass => st.(pos := st.pos + 1)
    case Start => SetTable(st, st.pos, st.tables[st.pos].(started := st.tables[st.pos].started + [0])).(copying := true)
    case CopiedDeferred(rows) => Recorded(st, 0, st.pos, rows).(copying := false, pos := st.pos + 1)
    case Proceed =>
      match st.phase
      case WaitWorkers => st.(phase := if cfg.snapshot then WaitDeferred else Marking(0))
      case Marking(i) =>
        if i >= cfg.tables then st.(phase := WaitDeferred)
        else if st.tables[i].status == Unknown
          then SetTable(st, i, st.tables[i].(status := Deferred, left := true)).(phase := Marking(i + 1))
        else st.(phase := Marking(i + 1))
      case WaitDeferred => st.(phase := Finished)
  }

  function SetTable(st: State, t: nat, e: Table): State
    requires t < |st.tables|
  {
    st.(tables := st.tables[t := e])
  }

  /** A COPY on connection c returned: its table is complete and its rows are in the map of the connection. */
  function Recorded(st: State, c: nat, t: nat, rows: nat): State
    requires c < |st.rowsCopied| && t < |st.tables|
  {
    var counts: map<nat, nat> := st.rowsCopied[c][t := rows];
    SetTable(st, t, st.tables[t].(status := Complete, holder := None, returned := st.tables[t].returned + [rows]))
    .(rowsCopied := st.rowsCopied[c := counts])
  }

  ghost predicate Shape(cfg: Config, st: State) {
    && |st.tables| == cfg.tables && |st.workers| == cfg.workers && |st.rowsCopied| == cfg.workers + 1
    && st.next <= cfg.tables && st.pos <= cfg.tables && (st.copying ==> st.pos < cfg.tables)
    && forall w | 0 <= w < cfg.workers && (st.workers[w].Locking? || st.workers[w].Copying?) ::
       st.workers[w].t < st.next
  }

  ghost predicate Step(cfg: Config, st: State, m: Move, st': State) {
    Shape(cfg, st) && CanMove(cfg, st, m) && st' == Next(cfg, st, m)
  }

  ghost predicate CanStep(cfg: Config, st: State, st': State) {
    exists m :: Step(cfg, st, m, st')
  }

  ghost predicate IsRun(cfg: Config, run: seq<State>) {
    && run != [] && run[0] == Init(cfg)
    && forall i, j | 0 <= i < j < |run| && j == i + 1 :: CanStep(cfg, run[i], run[j])
  }

  // ----- The invariant -----

  /** The main goroutine has marked, or found taken, every table below this number. */
  function Marked(cfg: Config, phase: Phase): nat {
    if cfg.snapshot then 0
    else match phase
      case WaitWorkers => 0
      case Marking(i) => if i < cfg.tables then i else cfg.tables
      case _ => cfg.tables
  }

  /** What is known about a table from its status; mine says that worker 0 is copying it. */
  predicate TableOK(workers: nat, t: nat, e: Table, next: nat, marked: nat, mine: bool) {
    && (if t < next then e.taker.Some? && e.taker.value < workers && !e.left else e.taker == None && !e.lockFailed)
    && (e.holder.Some? ==> e.holder == e.taker && e.status == Unknown)
    && (t >= next && t >= marked ==> e.status == Unknown)
    && match e.status
       case Unknown =>
         && (t < next ==> e.holder.Some?) && t >= marked
         && e.returned == [] && !e.lockFailed && !e.left && (e.holder == None ==> e.started == [])
       case Deferred => e.started == (if mine then [0] else []) && e.returned == [] && (e.lockFailed || e.left)
       case Complete => CopiedOnce(e)
  }

  /**
   * One COPY was started and returned, on the connection of the worker that took the table from the queue; it was on
   * connection 0 if and only if that worker could not lock the table or no worker ever took it.
   */
  predicate CopiedOnce(e: Table) {
    && e.started == [if e.taker.Some? && !e.lockFailed then e.taker.value + 1 else 0]
    && |e.returned| == 1
    && (e.started[0] == 0 <==> e.lockFailed || e.left)
    && (e.left <==> e.taker == None)
  }

  /** Connection c has a count for the table exactly if it copied it, and then the count its COPY returned. */
  predicate CountOK(c: nat, counts: map<nat, nat>, t: nat, e: Table) {
    if e.status == Complete && e.started == [c] then t in counts && e.returned == [counts[t]]
    else t !in counts
  }

  predicate Holds(wk: Worker, t: nat) {
    (wk.Locking? || wk.Copying?) && wk.t == t
  }

  predicate LinkOK(w: nat, wk: Worker, t: nat, e: Table) {
    && (Holds(wk, t) <==> e.holder == Some(w))
    && (Holds(wk, t) ==> e.started == if wk.Copying? then [w + 1] else [])
  }

  predicate WorkerOK(cfg: Config, wk: Worker, next: nat, phase: Phase) {
    && (wk == Exited && cfg.snapshot ==> next == cfg.tables)
    && (phase != WaitWorkers ==> wk == Exited)
  }

  ghost predicate TablesOK(cfg: Config, st: State)
    requires Shape(cfg, st)
  {
    forall t | 0 <= t < cfg.tables :: TableOK(cfg.workers, t, st.tables[t], st.next, Marked(cfg, st.phase),
                                              st.copying && st.pos == t)
  }

  ghost predicate LinksOK(cfg: Config, st: State)
    requires Shape(cfg, st)
  {
    forall w, t | 0 <= w < cfg.workers && 0 <= t < cfg.tables :: LinkOK(w, st.workers[w], t, st.tables[t])
  }

  ghost predicate CountsOK(cfg: Config, st: State)
    requires Shape(cfg, st)
  {
    forall c, t | 0 <= c <= cfg.workers && 0 <= t < cfg.tables :: CountOK(c, st.rowsCopied[c], t, st.tables[t])
  }

  ghost predicate RestOK(cfg: Config, st: State)
    requires Shape(cfg, st)
  {
    && (forall w | 0 <= w < cfg.workers :: WorkerOK(cfg, st.workers[w], st.next, st.phase))
    && (forall t | 0 <= t < st.pos :: st.tables[t].status == Complete)
    && (st.copying ==> st.tables[st.pos].status == Deferred)
    && (st.phase.Marking? ==> !cfg.snapshot)
    && (st.phase == Finished ==> st.pos == cfg.tables)
  }

  ghost predicate Inv(cfg: Config, st: State) {
    Shape(cfg, st) && TablesOK(cfg, st) && LinksOK(cfg, st) && CountsOK(cfg, st) && RestOK(cfg, st)
  }

  lemma InitInv(cfg: Config)
    ensures Inv(cfg, Init(cfg))
  {
  }

  lemma StepKeepsShape(cfg: Config, st: State, m: Move, st': State)
    requires Step(cfg, st, m, st')
    ensures Shape(cfg, st')
  {
  }

  lemma WorkerKeepsTables(cfg: Config, st: State, m: Move, st': State)
    requires Inv(cfg, st) && Step(cfg, st, m, st') && Shape(cfg, st')
    requires m.Take? || m.Leave? || m.Lock? || m.GiveUp? || m.Copied?
    ensures TablesOK(cfg, st')
  {
    if m.Lock? || m.GiveUp? || m.Copied? {
      assert LinkOK(m.w, st.workers[m.w], st.workers[m.w].t, st.tables[st.workers[m.w].t]);
    }
    if m.Take? {
      assert WorkerOK(cfg, st.workers[m.w], st.next, st.phase);
    }
  }

  lemma ZeroKeepsTables(cfg: Config, st: State, m: Move, st': State)
    requires Inv(cfg, st) && Step(cfg, st, m, st') && Shape(cfg, st') && (m.Pass? || m.Start? || m.CopiedDeferred?)
    ensures TablesOK(cfg, st')
  {
  }

  lemma ProceedKeepsTables(cfg: Config, st: State, st': State)
    requires Inv(cfg, st) && Step(cfg, st, Proceed, st') && Shape(cfg, st')
    ensures TablesOK(cfg, st')
  {
    if st.phase.Marking? && st.phase.next < cfg.tables {
      HolderOut(cfg, st, st.phase.next);
    }
  }

  /** After the workers are gone no table is held. */
  lemma HolderOut(cfg: Config, st: State, t: nat)
    requires Inv(cfg, st) && st.phase != WaitWorkers && t < cfg.tables
    ensures st.tables[t].holder == None
  {
    assert TableOK(cfg.workers, t, st.tables[t], st.next, Marked(cfg, st.phase), st.copying && st.pos == t);
    assert st.tables[t].holder.Some? ==>
           LinkOK(st.tables[t].holder.value, st.workers[st.tables[t].holder.value], t, st.tables[t]);
  }

  lemma WorkerKeepsLinks(cfg: Config, st: State, m: Move, st': State)
    requires Inv(cfg, st) && Step(cfg, st, m, st') && Shape(cfg, st')
    requires m.Take? || m.Leave? || m.Lock? || m.GiveUp? || m.Copied?
    ensures LinksOK(cfg, st')
  {
    forall w, t | 0 <= w < cfg.workers && 0 <= t < cfg.tables
      ensures LinkOK(w, st'.workers[w], t, st'.tables[t])
    {
      assert LinkOK(w, st.workers[w], t, st.tables[t]);
      assert TableOK(cfg.workers, t, st.tables[t], st.next, Marked(cfg, st.phase), st.copying && st.pos == t);
      if m.Take? {
        assert WorkerOK(cfg, st.workers[m.w], st.next, st.phase);
      }
      if m.Lock? || m.GiveUp? || m.Copied? {
        assert LinkOK(m.w, st.workers[m.w], st.workers[m.w].t, st.tables[st.workers[m.w].t]);
      }
    }
  }

  lemma OthersKeepLinks(cfg: Config, st: State, m: Move, st': State)
    requires Inv(cfg, st) && Step(cfg, st, m, st') && Shape(cfg, st')
    requires m.Pass? || m.Start? || m.CopiedDeferred? || m.Proceed?
    ensures LinksOK(cfg, st')
  {
    forall w, t | 0 <= w < cfg.workers && 0 <= t < cfg.tables
      ensures LinkOK(w, st'.workers[w], t, st'.tables[t])
    {
      assert LinkOK(w, st.workers[w], t, st.tables[t]);
      assert TableOK(cfg.workers, t, st.tables[t], st.next, Marked(cfg, st.phase), st.copying && st.pos == t);
    }
  }

  lemma WorkerKeepsCounts(cfg: Config, st: State, m: Move, st': State)
    requires Inv(cfg, st) && Step(cfg, st, m, st') && Shape(cfg, st')
    requires m.Take? || m.Leave? || m.Lock? || m.GiveUp? || m.Copied?
    ensures CountsOK(cfg, st')
  {
    if m.Lock? || m.GiveUp? || m.Copied? {
      var t := st.workers[m.w].t;
      assert LinkOK(m.w, st.workers[m.w], t, st.tables[t]);
      assert TableOK(cfg.workers, t, st.tables[t], st.next, Marked(cfg, st.phase), st.copying && st.pos == t);
    }
  }

  lemma OthersKeepCounts(cfg: Config, st: State, m: Move, st': State)
    requires Inv(cfg, st) && Step(cfg, st, m, st') && Shape(cfg, st')
    requires m.Pass? || m.Start? || m.CopiedDeferred? || m.Proceed?
    ensures CountsOK(cfg, st')
  {
  }

  lemma StepKeepsRest(cfg: Config, st: State, m: Move, st': State)
    requires Inv(cfg, st) && Step(cfg, st, m, st') && Shape(cfg, st')
    ensures RestOK(cfg, st')
  {
    if m.Take? || m.Lock? || m.GiveUp? || m.Copied? {
      assert WorkerOK(cfg, st.workers[m.w], st.next, st.phase);
    }
    if m.Lock? || m.GiveUp? || m.Copied? {
      KeepsEarlierComplete(cfg, st, m.w);
    }
  }

  /** A table that a worker has is neither complete nor deferred. */
  lemma KeepsEarlierComplete(cfg: Config, st: State, w: nat)
    requires Inv(cfg, st) && w < cfg.workers && (st.workers[w].Locking? || st.workers[w].Copying?)
    ensures st.tables[st.workers[w].t].status == Unknown
  {
  }

  lemma StepKeepsInv(cfg: Config, st: State, m: Move, st': State)
    requires Inv(cfg, st) && Step(cfg, st, m, st')
    ensures Inv(cfg, st')
  {
    StepKeepsShape(cfg, st, m, st');
    if m.Proceed? {
      ProceedKeepsTables(cfg, st, st');
      OthersKeepCounts(cfg, st, m, st');
      OthersKeepLinks(cfg, st, m, st');
    } else if m.Pass? || m.Start? || m.CopiedDeferred? {
      ZeroKeepsTables(cfg, st, m, st');
      OthersKeepCounts(cfg, st, m, st');
      OthersKeepLinks(cfg, st, m, st');
    } else {
      WorkerKeepsTables(cfg, st, m, st');
      WorkerKeepsCounts(cfg, st, m, st');
      WorkerKeepsLinks(cfg, st, m, st');
    }
    StepKeepsRest(cfg, st, m, st');
  }

  lemma {:induction false} RunKeepsInv(cfg: Config, run: seq<State>, i: nat)
    requires IsRun(cfg, run) && i < |run|
    ensures Inv(cfg, run[i])
  {
    if i == 0 {
      InitInv(cfg);
    } else {
      RunKeepsInv(cfg, run, i - 1);
      assert CanStep(cfg, run[i - 1], run[i]);
      var m :| Step(cfg, run[i - 1], m, run[i]);
      StepKeepsInv(cfg, run[i - 1], m, run[i]);
    }
  }

  // ----- Every run ends well -----

  function WorkerWork(wk: Worker): int {
    match wk case Idle => 1 case Locking(_) => 4 case Copying(_) => 3 case Exited => 0
  }

  function PhaseWork(cfg: Config, phase: Phase): int {
    match phase
    case WaitWorkers => cfg.tables + 3
    case Marking(i) => if i < cfg.tables then cfg.tables - i + 2 else 2
    case WaitDeferred => 1
    case Finished => 0
  }

  ghost function Work(cfg: Config, st: State): int {
    4 * (cfg.tables - st.next) + SumTo(st.workers, WorkerWork, |st.workers|)
    + 2 * (cfg.tables - st.pos) - (if st.copying then 1 else 0) + PhaseWork(cfg, st.phase)
  }

  /** Every move brings the backup nearer to its end; only waiting does not count as a move. */
  lemma StepWorks(cfg: Config, st: State, m: Move, st': State)
    requires Step(cfg, st, m, st')
    ensures Work(cfg, st') < Work(cfg, st)
  {
    if m.Take? || m.Leave? || m.Lock? || m.GiveUp? || m.Copied? {
      SumToUpdate(st.workers, WorkerWork, |st.workers|, m.w, st'.workers[m.w]);
    }
  }

  lemma WorkLeft(cfg: Config, st: State)
    requires Shape(cfg, st)
    ensures Work(cfg, st) >= 0
  {
    SumToWithin(st.workers, WorkerWork, |st.workers|, 0, 4);
  }

  lemma {:induction false} RunsEnd(cfg: Config, run: seq<State>, i: nat)
    requires IsRun(cfg, run) && i < |run|
    ensures 0 <= Work(cfg, run[i]) <= Work(cfg, run[0]) - i
  {
    RunKeepsInv(cfg, run, i);
    WorkLeft(cfg, run[i]);
    if i > 0 {
      RunsEnd(cfg, run, i - 1);
      assert CanStep(cfg, run[i - 1], run[i]);
      var m :| Step(cfg, run[i - 1], m, run[i]);
      StepWorks(cfg, run[i - 1], m, run[i]);
    }
  }

  /** With a snapshot and no worker besides worker 0, nothing would ever be deferred. */
  predicate Staffed(cfg: Config) {
    cfg.snapshot && cfg.tables > 0 ==> cfg.workers > 0
  }

  /** Once the workers are gone and no one is left to mark tables, worker 0's table is not Unknown. */
  lemma NoTableForgotten(cfg: Config, st: State, t: nat)
    requires Inv(cfg, st) && Staffed(cfg) && t < cfg.tables && (st.phase == WaitDeferred || st.phase == Finished)
    ensures st.tables[t].status != Unknown
  {
    assert TableOK(cfg.workers, t, st.tables[t], st.next, Marked(cfg, st.phase), st.copying && st.pos == t);
    HolderOut(cfg, st, t);
    if cfg.snapshot {
      assert WorkerOK(cfg, st.workers[0], st.next, st.phase);
    }
  }

  lemma NeverStuck(cfg: Config, st: State) returns (m: Move, st': State)
    requires Inv(cfg, st) && Staffed(cfg) && st.phase != Finished
    ensures Step(cfg, st, m, st')
  {
    if w: nat :| w < cfg.workers && st.workers[w] != Exited {
      m := match st.workers[w]
           case Idle => if st.next < cfg.tables then Take(w) else Leave(w)
           case Locking(_) => Lock(w)
           case Copying(_) => Copied(w, 0);
    } else if st.phase == WaitDeferred && st.pos < cfg.tables {
      NoTableForgotten(cfg, st, st.pos);
      m := if st.copying then CopiedDeferred(0) else if st.tables[st.pos].status == Complete then Pass else Start;
    } else {
      m := Proceed;
    }
    st' := Next(cfg, st, m);
  }

  ghost predicate Blocked(cfg: Config, st: State) {
    forall m, next :: !Step(cfg, st, m, next)
  }

  /** All tables are complete, each copied once, by worker 0 if and only if no worker could lock it or took it. */
  ghost predicate AllCopiedOnce(cfg: Config, st: State) {
    Shape(cfg, st) && forall t | 0 <= t < cfg.tables :: st.tables[t].status == Complete && CopiedOnce(st.tables[t])
  }

  /** Every run ends, and one that cannot go on has copied every table exactly once. */
  lemma EveryRunCompletes(cfg: Config, run: seq<State>)
    requires Staffed(cfg) && IsRun(cfg, run)
    ensures |run| <= Work(cfg, run[0]) + 1
    ensures Blocked(cfg, run[|run| - 1]) ==> run[|run| - 1].phase == Finished && AllCopiedOnce(cfg, run[|run| - 1])
  {
    var st := run[|run| - 1];
    RunsEnd(cfg, run, |run| - 1);
    RunKeepsInv(cfg, run, |run| - 1);
    if Blocked(cfg, st) {
      if st.phase != Finished {
        var m, next := NeverStuck(cfg, st);
        assert false;
      }
      FinishedIsCopied(cfg, st);
    }
  }

  lemma FinishedIsCopied(cfg: Config, st: State)
    requires Inv(cfg, st) && st.phase == Finished
    ensures AllCopiedOnce(cfg, st)
  {
    forall t | 0 <= t < cfg.tables
      ensures CopiedOnce(st.tables[t])
    {
      assert TableOK(cfg.workers, t, st.tables[t], st.next, Marked(cfg, st.phase), st.copying && st.pos == t);
    }
  }

  /** A backup with a snapshot but without workers of its own waits forever for its first table. */
  lemma UnstaffedHangs(cfg: Config)
    requires !Staffed(cfg)
    ensures var st := Init(cfg).(phase := WaitDeferred);
            IsRun(cfg, [Init(cfg), st]) && Blocked(cfg, st) && st.tables[0].status == Unknown
  {
    var st := Init(cfg).(phase := WaitDeferred);
    assert Step(cfg, Init(cfg), Proceed, st);
    assert CanStep(cfg, Init(cfg), st);
  }

  // ----- The table of contents -----

  datatype DataEntry = DataEntry(oid: nat, rowsCopied: nat)

  /** The count of the first connection, from c on, that has one for the table; 0 if none has. */
  function FirstCount(rowsCopiedMaps: seq<map<nat, nat>>, t: nat, c: nat): nat
    requires c <= |rowsCopiedMaps|
    decreases |rowsCopiedMaps| - c
  {
    if c == |rowsCopiedMaps| then 0
    else if t in rowsCopiedMaps[c] then rowsCopiedMaps[c][t]
    else FirstCount(rowsCopiedMaps, t, c + 1)
  }

  /** The entries of the first n tables, leaving out those whose data is not backed up. */
  function DataEntries(tables: seq<nat>, skipData: set<nat>, rowsCopiedMaps: seq<map<nat, nat>>, n: nat): seq<DataEntry>
    requires n <= |tables|
  {
    if n == 0 then []
    else DataEntries(tables, skipData, rowsCopiedMaps, n - 1)
         + if tables[n - 1] in skipData then []
           else [DataEntry(tables[n - 1], FirstCount(rowsCopiedMaps, tables[n - 1], 0))]
  }

  /** The connection is the first that has a count for the table. */
  ghost predicate FirstToCount(rowsCopiedMaps: seq<map<nat, nat>>, t: nat, c: nat) {
    c < |rowsCopiedMaps| && t in rowsCopiedMaps[c] && forall d | 0 <= d < c :: t !in rowsCopiedMaps[d]
  }

  /** The count is that of the first connection, worker 0 included, that has one for the table; 0 if none has. */
  ghost predicate CountIs(rowsCopiedMaps: seq<map<nat, nat>>, t: nat, count: nat) {
    || (exists c: nat :: FirstToCount(rowsCopiedMaps, t, c) && count == rowsCopiedMaps[c][t])
    || ((forall c | 0 <= c < |rowsCopiedMaps| :: t !in rowsCopiedMaps[c]) && count == 0)
  }

  /** The positions, below n, of the tables whose data is backed up. */
  ghost function WithData(tables: seq<nat>, skipData: set<nat>, n: nat): set<nat>
    requires n <= |tables|
  {
    set i | 0 <= i < n && tables[i] !in skipData
  }

  /** The entries are those of the tables at some positions, in order, each with its count. */
  ghost predicate EntriesOf(tables: seq<nat>, rowsCopiedMaps: seq<map<nat, nat>>, entries: seq<DataEntry>,
                            wanted: set<nat>)
  {
    exists idx :: ListsIndices(idx, wanted) && |idx| == |entries| && EntriesAt(tables, rowsCopiedMaps, entries, idx)
  }

  ghost predicate EntriesAt(tables: seq<nat>, rowsCopiedMaps: seq<map<nat, nat>>, entries: seq<DataEntry>,
                            idx: seq<nat>)
    requires |idx| == |entries|
  {
    forall k | 0 <= k < |entries| ::
      && idx[k] < |tables| && entries[k].oid == tables[idx[k]]
      && CountIs(rowsCopiedMaps, entries[k].oid, entries[k].rowsCopied)
  }

  lemma {:induction false} FirstCountIs(rowsCopiedMaps: seq<map<nat, nat>>, t: nat, c: nat)
    requires c <= |rowsCopiedMaps| && forall d | 0 <= d < c :: t !in rowsCopiedMaps[d]
    ensures CountIs(rowsCopiedMaps, t, FirstCount(rowsCopiedMaps, t, c))
    decreases |rowsCopiedMaps| - c
  {
    if c < |rowsCopiedMaps| {
      if t in rowsCopiedMaps[c] {
        assert FirstToCount(rowsCopiedMaps, t, c);
      } else {
        FirstCountIs(rowsCopiedMaps, t, c + 1);
      }
    }
  }

  lemma OneEntryMore(tables: seq<nat>, rowsCopiedMaps: seq<map<nat, nat>>, entries: seq<DataEntry>, wanted: set<nat>,
                     n: nat, e: DataEntry)
    requires EntriesOf(tables, rowsCopiedMaps, entries, wanted) && n < |tables| && forall i | i in wanted :: i < n
    requires e.oid == tables[n] && CountIs(rowsCopiedMaps, e.oid, e.rowsCopied)
    ensures EntriesOf(tables, rowsCopiedMaps, entries + [e], wanted + {n})
  {
    var idx :| ListsIndices(idx, wanted) && |idx| == |entries| && EntriesAt(tables, rowsCopiedMaps, entries, idx);
    OneIndexMore(idx, wanted, n);
    assert EntriesAt(tables, rowsCopiedMaps, entries + [e], idx + [n]);
  }

  lemma NoEntries(tables: seq<nat>, skipData: set<nat>, rowsCopiedMaps: seq<map<nat, nat>>)
    ensures EntriesOf(tables, rowsCopiedMaps, [], WithData(tables, skipData, 0))
  {
    assert WithData(tables, skipData, 0) == {};
    assert ListsIndices([], {}) && EntriesAt(tables, rowsCopiedMaps, [], []);
  }

  lemma DataEntriesStep(tables: seq<nat>, skipData: set<nat>, rowsCopiedMaps: seq<map<nat, nat>>,
                        entries: seq<DataEntry>, n: nat)
    requires n < |tables| && EntriesOf(tables, rowsCopiedMaps, entries, WithData(tables, skipData, n))
    ensures EntriesOf(tables, rowsCopiedMaps,
                      entries + if tables[n] in skipData then []
                                else [DataEntry(tables[n], FirstCount(rowsCopiedMaps, tables[n], 0))],
                      WithData(tables, skipData, n + 1))
  {
    var wanted := WithData(tables, skipData, n);
    if tables[n] in skipData {
      assert WithData(tables, skipData, n + 1) == wanted;
      assert entries + [] == entries;
    } else {
      FirstCountIs(rowsCopiedMaps, tables[n], 0);
      var e := DataEntry(tables[n], FirstCount(rowsCopiedMaps, tables[n], 0));
      OneEntryMore(tables, rowsCopiedMaps, entries, wanted, n, e);
      assert WithData(tables, skipData, n + 1) == wanted + {n};
    }
  }

  lemma {:induction false} DataEntriesAre(tables: seq<nat>, skipData: set<nat>, rowsCopiedMaps: seq<map<nat, nat>>,
                                          n: nat)
    requires n <= |tables|
    ensures EntriesOf(tables, rowsCopiedMaps, DataEntries(tables, skipData, rowsCopiedMaps, n),
                      WithData(tables, skipData, n))
  {
    if n == 0 {
      NoEntries(tables, skipData, rowsCopiedMaps);
    } else {
      DataEntriesAre(tables, skipData, rowsCopiedMaps, n - 1);
      DataEntriesStep(tables, skipData, rowsCopiedMaps, DataEntries(tables, skipData, rowsCopiedMaps, n - 1), n - 1);
    }
  }

  lemma FirstIsUnique(rowsCopiedMaps: seq<map<nat, nat>>, t: nat, c: nat, d: nat)
    requires FirstToCount(rowsCopiedMaps, t, c) && FirstToCount(rowsCopiedMaps, t, d)
    ensures c == d
  {
  }

  /** A count of 0 means that no connection has one for the table, or that the first that has one has 0. */
  lemma ZeroCountIff(rowsCopiedMaps: seq<map<nat, nat>>, t: nat, count: nat)
    requires CountIs(rowsCopiedMaps, t, count)
    ensures count == 0 <==> forall c: nat | FirstToCount(rowsCopiedMaps, t, c) :: rowsCopiedMaps[c][t] == 0
  {
    forall c: nat, d: nat | FirstToCount(rowsCopiedMaps, t, c) && FirstToCount(rowsCopiedMaps, t, d)
      ensures c == d
    {
      FirstIsUnique(rowsCopiedMaps, t, c, d);
    }
  }

  /** After a complete run the count of a table is the one that its one COPY returned, worker 0's included. */
  lemma CountAfterRun(cfg: Config, st: State, t: nat, count: nat)
    requires Inv(cfg, st) && AllCopiedOnce(cfg, st) && t < cfg.tables && CountIs(st.rowsCopied, t, count)
    ensures st.tables[t].returned == [count]
  {
    var e := st.tables[t];
    assert CopiedOnce(e);
    assert TableOK(cfg.workers, t, e, st.next, Marked(cfg, st.phase), st.copying && st.pos == t);
    var c := e.started[0];
    forall d: nat | d <= cfg.workers
      ensures if d == c then t in st.rowsCopied[d] && e.returned == [st.rowsCopied[d][t]] else t !in st.rowsCopied[d]
    {
      assert CountOK(d, st.rowsCopied[d], t, e);
    }
    assert FirstToCount(st.rowsCopied, t, c);
    if d: nat :| FirstToCount(st.rowsCopied, t, d) && count == st.rowsCopied[d][t] {
      FirstIsUnique(st.rowsCopied, t, c, d);
    }
  }

  /** So every entry has the count that the one COPY of its table returned. */
  lemma EntriesHaveTheCopysCounts(cfg: Config, st: State, tables: seq<nat>, skipData: set<nat>,
                                  entries: seq<DataEntry>, k: nat)
    requires Inv(cfg, st) && AllCopiedOnce(cfg, st) && forall t | t in tables :: t < cfg.tables
    requires EntriesOf(tables, st.rowsCopied, entries, WithData(tables, skipData, |tables|)) && k < |entries|
    ensures entries[k].oid < cfg.tables
    ensures st.tables[entries[k].oid].returned == [entries[k].rowsCopied]
  {
    var idx :| ListsIndices(idx, WithData(tables, skipData, |tables|)) && |idx| == |entries|
               && EntriesAt(tables, st.rowsCopied, entries, idx);
    assert idx[k] < |tables| && entries[k].oid == tables[idx[k]];
    assert tables[idx[k]] in tables;
    CountAfterRun(cfg, st, entries[k].oid, entries[k].rowsCopied);
  }

  method AddTableDataEntriesToTOC(tables: seq<nat>, skipData: set<nat>, rowsCopiedMaps: seq<map<nat, nat>>)
    returns (entries: seq<DataEntry>)
    ensures entries == DataEntries(tables, skipData, rowsCopiedMaps, |tables|)
    ensures EntriesOf(tables, rowsCopiedMaps, entries, WithData(tables, skipData, |tables|))
  {
    DataEntriesAre(tables, skipData, rowsCopiedMaps, |tables|);
    entries := [];
    for i := 0 to |tables|
      invariant entries == DataEntries(tables, skipData, rowsCopiedMaps, i)
    {
      var t := tables[i];
      if t !in skipData {
        var rowsCopied := 0;
        var c := 0;
        while c < |rowsCopiedMaps|
          invariant c <= |rowsCopiedMaps|
          invariant rowsCopied == 0 && FirstCount(rowsCopiedMaps, t, c) == FirstCount(rowsCopiedMaps, t, 0)
        {
          if t in rowsCopiedMaps[c] {
            rowsCopied := rowsCopiedMaps[c][t];
            break;
          }
          c := c + 1;
        }
        entries := entries + [DataEntry(t, rowsCopied)];
      }
    }
  }

  /** The count found for a table is what its one COPY returned, whichever connection that was. */
  lemma {:induction false} CountIsTheCopys(cfg: Config, st: State, t: nat, c: nat)
    requires Inv(cfg, st) && AllCopiedOnce(cfg, st) && t < cfg.tables && c <= st.tables[t].started[0]
    ensures FirstCount(st.rowsCopied, t, c) == st.tables[t].returned[0]
    decreases cfg.workers - c
  {
    assert CountOK(c, st.rowsCopied[c], t, st.tables[t]);
    if st.tables[t].started[0] != c {
      CountIsTheCopys(cfg, st, t, c + 1);
    }
  }
}

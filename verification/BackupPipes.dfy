/**
 * Backing up to a single data file: the workers and worker 0 write the tables they copy to pipes, which the backup
 * helper of every segment reads in the order of the queue, creating pipes a fixed number of tables ahead.
 */
module BackupPipes {
  import opened Collections
  import B = BackupData
  import OidLists

  /** There are conns - 1 workers besides worker 0. queue is how many pipes exist at the start. */
  datatype Config = Config(tables: nat, conns: nat, queue: nat, segments: nat, snapshot: bool)

  ghost predicate ValidConfig(cfg: Config) {
    cfg.tables >= 1 && cfg.conns >= 2 && cfg.segments >= 1 && cfg.queue == OidLists.InitialPipes(cfg.tables, cfg.conns)
  }

  function Base(cfg: Config): B.Config {
    B.Config(cfg.tables, if cfg.conns == 0 then 0 else cfg.conns - 1, cfg.snapshot)
  }

  /** Where a helper is with its table: its next pipe to create, its own pipe to open, or that pipe to read. */
  datatype Stage = Create | Open | Reading

  /** made and dropped are the pipes created and deleted so far, in order; live is those that exist. */
  datatype Helper = Helper(pos: nat, stage: Stage, live: set<nat>, made: seq<nat>, dropped: seq<nat>)

  datatype State = State(backup: B.State, helpers: seq<Helper>)

  ghost function Init(cfg: Config): State {
    State(B.Init(Base(cfg)),
          seq(cfg.segments, s => Helper(0, Create, Below(cfg.queue), seq(cfg.queue, i requires i >= 0 => i), [])))
  }

  datatype Move =
    | Backup(m: B.Move)      // a move of the workers, of worker 0 or of the main goroutine
    | MakePipe(s: nat)       // a helper starts on a table and creates the pipe queue places ahead
    | OpenPipe(s: nat)       // a helper opens the pipe of its table, which a COPY has opened for writing
    | DropPipe(s: nat)       // a helper has read that pipe to its end, deletes it and goes on to the next table

  /** The table is being copied, by a worker or by worker 0. */
  predicate Issued(b: B.State, t: nat) {
    B.Copying(t) in b.workers || (b.copying && b.pos == t)
  }

  /** The tables whose pipes a helper has opened are those below this number. */
  function Through(h: Helper): nat {
    h.pos + if h.stage == Reading then 1 else 0
  }

  ghost predicate OpenedEverywhere(st: State, t: nat) {
    forall h | h in st.helpers :: t < Through(h)
  }

  /**
   * A COPY returns only when every helper has opened its pipe: it can then write what it has to, and return before the
   * helper has read the last of it from the pipe's buffer.
   */
  ghost predicate Permitted(st: State, m: B.Move) {
    match m
    case Copied(w, _) => w < |st.backup.workers| && st.backup.workers[w].Copying? &&
         OpenedEverywhere(st, st.backup.workers[w].t)
    case CopiedDeferred(_) => OpenedEverywhere(st, st.backup.pos)
    case _ => true
  }

  function Made(cfg: Config, h: Helper): Helper {
    if h.pos + cfg.queue < cfg.tables
    then h.(stage := Open, live := h.live + {h.pos + cfg.queue}, made := h.made + [h.pos + cfg.queue])
    else h.(stage := Open)
  }

  function Dropped(h: Helper): Helper {
    h.(pos := h.pos + 1, stage := Create, live := h.live - {h.pos}, dropped := h.dropped + [h.pos])
  }

  function SetHelper(st: State, s: nat, h: Helper): State
    requires s < |st.helpers|
  {
    st.(helpers := st.helpers[s := h])
  }

  ghost predicate Step(cfg: Config, st: State, m: Move, st': State) {
    match m
    case Backup(b) => B.Step(Base(cfg), st.backup, b, st'.backup) && Permitted(st, b) && st'.helpers == st.helpers
    case MakePipe(s) =>
      && s < |st.helpers| && st.helpers[s].pos < cfg.tables && st.helpers[s].stage == Create
      && st' == SetHelper(st, s, Made(cfg, st.helpers[s]))
    case OpenPipe(s) =>
      && s < |st.helpers| && st.helpers[s].stage == Open
      && st.helpers[s].pos in st.helpers[s].live && Issued(st.backup, st.helpers[s].pos)
      && st' == SetHelper(st, s, st.helpers[s].(stage := Reading))
    case DropPipe(s) =>
      && s < |st.helpers| && st.helpers[s].stage == Reading
      && st' == SetHelper(st, s, Dropped(st.helpers[s]))
  }

  ghost predicate CanStep(cfg: Config, st: State, st': State) {
    exists m :: Step(cfg, st, m, st')
  }

  ghost predicate IsRun(cfg: Config, run: seq<State>) {
    && run != [] && run[0] == Init(cfg)
    && forall i, j | 0 <= i < j < |run| && j == i + 1 :: CanStep(cfg, run[i], run[j])
  }

  // ----- The helpers -----

  predicate CountsUp(s: seq<nat>) {
    forall i | 0 <= i < |s| :: s[i] == i
  }

  /** The pipes a helper has created so far are those of the tables below this number. */
  function Created(cfg: Config, h: Helper): nat {
    var ahead := h.pos + cfg.queue + if h.stage == Create then 0 else 1;
    if ahead < cfg.tables then ahead else cfg.tables
  }

  /** Pipes are created and deleted once each, in table order, and exist in between. */
  ghost predicate HelperOK(cfg: Config, h: Helper) {
    && h.pos <= cfg.tables && (h.stage != Create ==> h.pos < cfg.tables)
    && CountsUp(h.made) && |h.made| == Created(cfg, h)
    && CountsUp(h.dropped) && |h.dropped| == h.pos
    && forall t: nat :: t in h.live <==> h.pos <= t < Created(cfg, h)
  }

  /** A table is complete only if every helper has opened its pipe, and opened only if its COPY was started. */
  predicate ServedOK(t: nat, e: B.Table, h: Helper) {
    && (e.status == B.Complete ==> t < Through(h))
    && (t < Through(h) ==> e.started != [])
  }

  // ----- Which tables a worker can still have -----

  /** The worker that took the table needs it no more and has gone on. */
  predicate Passed(cfg: Config, e: B.Table) {
    e.status == B.Complete || (cfg.snapshot && e.lockFailed)
  }

  /** A table taken and not passed is with its worker, or was what made its worker exit. */
  predicate TakerOK(cfg: Config, t: nat, e: B.Table, workers: seq<B.Worker>) {
    && e.taker.Some? && e.taker.value < |workers|
    && (Passed(cfg, e) || B.Holds(workers[e.taker.value], t) || (workers[e.taker.value] == B.Exited && e.lockFailed))
  }

  ghost predicate TakersOK(cfg: Config, b: B.State)
    requires B.Shape(Base(cfg), b)
  {
    && (forall t | 0 <= t < b.next :: TakerOK(cfg, t, b.tables[t], b.workers))
    && forall t, u | 0 <= t < u < b.next && b.tables[t].taker == b.tables[u].taker :: Passed(cfg, b.tables[t])
  }

  ghost predicate HelpersOK(cfg: Config, st: State)
    requires B.Shape(Base(cfg), st.backup)
  {
    && |st.helpers| == cfg.segments
    && (forall s | 0 <= s < |st.helpers| :: HelperOK(cfg, st.helpers[s]))
    && forall s, t | 0 <= s < |st.helpers| && 0 <= t < cfg.tables :: ServedOK(t, st.backup.tables[t], st.helpers[s])
  }

  ghost predicate Inv(cfg: Config, st: State) {
    B.Inv(Base(cfg), st.backup) && HelpersOK(cfg, st) && TakersOK(cfg, st.backup)
  }

  lemma InitInv(cfg: Config)
    requires ValidConfig(cfg)
    ensures Inv(cfg, Init(cfg))
  {
    B.InitInv(Base(cfg));
  }

  lemma IssuedIsStarted(cfg: B.Config, b: B.State, t: nat)
    requires B.Inv(cfg, b) && Issued(b, t)
    ensures t < cfg.tables && b.tables[t].started != [] && b.tables[t].status != B.Complete
  {
    if B.Copying(t) in b.workers {
      var w :| 0 <= w < |b.workers| && b.workers[w] == B.Copying(t);
      assert B.LinkOK(w, b.workers[w], t, b.tables[t]);
    }
    assert B.TableOK(cfg.workers, t, b.tables[t], b.next, B.Marked(cfg, b.phase), b.copying && b.pos == t);
  }

  /** How a move of the backup can change the entry of a table. */
  predicate Grown(e: B.Table, e': B.Table) {
    && (e.started != [] ==> e'.started != [])
    && (e.lockFailed ==> e'.lockFailed)
    && (e.status == B.Complete ==> e'.status == B.Complete)
    && (e.taker.Some? ==> e'.taker == e.taker)
  }

  lemma EntryGrows(cfg: B.Config, b: B.State, m: B.Move, b': B.State, t: nat)
    requires B.Inv(cfg, b) && B.Step(cfg, b, m, b') && B.Shape(cfg, b') && t < cfg.tables
    ensures Grown(b.tables[t], b'.tables[t])
  {
    assert B.TableOK(cfg.workers, t, b.tables[t], b.next, B.Marked(cfg, b.phase), b.copying && b.pos == t);
    if m.Lock? || m.GiveUp? || m.Copied? {
      assert B.LinkOK(m.w, b.workers[m.w], t, b.tables[t]);
    }
  }

  /** A table becomes complete only when the COPY that was issued for it returns. */
  lemma OnlyCopiesComplete(cfg: B.Config, b: B.State, m: B.Move, b': B.State, t: nat)
    requires B.Inv(cfg, b) && B.Step(cfg, b, m, b') && B.Shape(cfg, b') && t < cfg.tables
    requires b'.tables[t].status == B.Complete && b.tables[t].status != B.Complete
    ensures Issued(b, t) && if m.Copied? then b.workers[m.w].t == t else m.CopiedDeferred? && b.pos == t
  {
    assert B.TableOK(cfg.workers, t, b.tables[t], b.next, B.Marked(cfg, b.phase), b.copying && b.pos == t);
    if m.Lock? || m.GiveUp? || m.Copied? {
      assert B.LinkOK(m.w, b.workers[m.w], t, b.tables[t]);
    }
  }

  lemma TakerKept(cfg: Config, b: B.State, m: B.Move, b': B.State, t: nat)
    requires cfg.conns >= 2 && B.Inv(Base(cfg), b) && B.Step(Base(cfg), b, m, b') && B.Inv(Base(cfg), b')
    requires t < b.next && TakerOK(cfg, t, b.tables[t], b.workers)
    ensures TakerOK(cfg, t, b'.tables[t], b'.workers)
  {
    EntryGrows(Base(cfg), b, m, b', t);
    var w := b.tables[t].taker.value;
    assert B.LinkOK(w, b.workers[w], t, b.tables[t]) && B.LinkOK(w, b'.workers[w], t, b'.tables[t]);
    if B.Holds(b.workers[w], t) && m.Copied? {
      assert B.LinkOK(m.w, b.workers[m.w], t, b.tables[t]);
    }
  }

  lemma BackupKeepsTakers(cfg: Config, b: B.State, m: B.Move, b': B.State)
    requires cfg.conns >= 2 && B.Inv(Base(cfg), b) && TakersOK(cfg, b)
    requires B.Step(Base(cfg), b, m, b') && B.Inv(Base(cfg), b')
    ensures TakersOK(cfg, b')
  {
    forall t: nat | t < b.next
      ensures TakerOK(cfg, t, b'.tables[t], b'.workers) && Grown(b.tables[t], b'.tables[t]) &&
              b'.tables[t].taker == b.tables[t].taker
    {
      assert TakerOK(cfg, t, b.tables[t], b.workers);
      TakerKept(cfg, b, m, b', t);
      EntryGrows(Base(cfg), b, m, b', t);
    }
    if m.Take? {
      TakeKeepsTakers(cfg, b, m.w, b');
    }
  }

  lemma TakeKeepsTakers(cfg: Config, b: B.State, w: nat, b': B.State)
    requires cfg.conns >= 2 && B.Shape(Base(cfg), b) && TakersOK(cfg, b)
    requires B.Step(Base(cfg), b, B.Take(w), b') && B.Shape(Base(cfg), b')
    ensures TakerOK(cfg, b.next, b'.tables[b.next], b'.workers) && b'.tables[b.next].taker == Some(w)
    ensures forall t | 0 <= t < b.next && b.tables[t].taker == Some(w) :: Passed(cfg, b.tables[t])
  {
    forall t | 0 <= t < b.next && b.tables[t].taker == Some(w)
      ensures Passed(cfg, b.tables[t])
    {
      assert TakerOK(cfg, t, b.tables[t], b.workers);
    }
  }

  lemma BackupKeepsServed(cfg: Config, st: State, m: B.Move, st': State)
    requires ValidConfig(cfg) && Inv(cfg, st) && Step(cfg, st, Backup(m), st') && B.Inv(Base(cfg), st'.backup)
    ensures HelpersOK(cfg, st')
  {
    forall s, t: nat | 0 <= s < |st.helpers| && t < cfg.tables
      ensures ServedOK(t, st'.backup.tables[t], st'.helpers[s])
    {
      assert ServedOK(t, st.backup.tables[t], st.helpers[s]);
      EntryGrows(Base(cfg), st.backup, m, st'.backup, t);
      if st'.backup.tables[t].status == B.Complete && st.backup.tables[t].status != B.Complete {
        OnlyCopiesComplete(Base(cfg), st.backup, m, st'.backup, t);
      }
      assert st.helpers[s] in st.helpers;
    }
  }

  lemma HelperKeepsInv(cfg: Config, st: State, m: Move, st': State)
    requires ValidConfig(cfg) && Inv(cfg, st) && !m.Backup? && Step(cfg, st, m, st')
    ensures Inv(cfg, st')
    ensures Created(cfg, st.helpers[m.s]) <= Created(cfg, st'.helpers[m.s])
    ensures Through(st.helpers[m.s]) <= Through(st'.helpers[m.s])
  {
    var h := st.helpers[m.s];
    assert HelperOK(cfg, h) && HelperOK(cfg, st'.helpers[m.s]);
    if m.OpenPipe? {
      IssuedIsStarted(Base(cfg), st.backup, h.pos);
    }
    forall t | 0 <= t < cfg.tables
      ensures ServedOK(t, st.backup.tables[t], st'.helpers[m.s])
    {
      assert ServedOK(t, st.backup.tables[t], h);
    }
  }

  lemma StepKeepsInv(cfg: Config, st: State, m: Move, st': State)
    requires ValidConfig(cfg) && Inv(cfg, st) && Step(cfg, st, m, st')
    ensures Inv(cfg, st')
  {
    if m.Backup? {
      B.StepKeepsInv(Base(cfg), st.backup, m.m, st'.backup);
      BackupKeepsTakers(cfg, st.backup, m.m, st'.backup);
      BackupKeepsServed(cfg, st, m.m, st');
    } else {
      HelperKeepsInv(cfg, st, m, st');
    }
  }

  lemma {:induction false} RunKeepsInv(cfg: Config, run: seq<State>, i: nat)
    requires ValidConfig(cfg) && IsRun(cfg, run) && i < |run|
    ensures Inv(cfg, run[i])
  {
    if i == 0 {
      InitInv(cfg);
    } else {
      RunKeepsInv(cfg, run, i - 1);
      assert CanStep(cfg, run[i - 1], run[i]);
      var m :| Step(cfg, run[i - 1], m, run[i]);
      StepKeepsInv(cfg, run[i - 1], m, run[i]);
    }
  }

  // ----- Whether the pipe of a COPY exists -----

  /** Every COPY finds its pipe on every segment whose helper has not opened it yet. */
  ghost predicate Ready(st: State) {
    forall t: nat, h | Issued(st.backup, t) && h in st.helpers :: t in h.live || t < Through(h)
  }

  /** The tables that wait for worker 0, or are with it. */
  ghost function Waiting(b: B.State): set<nat> {
    set t | 0 <= t < |b.tables| && b.tables[t].status == B.Deferred
  }

  /** No worker, and not worker 0 either, has a table whose pipe a helper has not created. */
  ghost predicate Covered(cfg: Config, st: State) {
    forall h | h in st.helpers :: CoveredBy(st.backup, Created(cfg, h))
  }

  ghost predicate CoveredBy(b: B.State, created: nat) {
    && (forall w | 0 <= w < |b.workers| && (b.workers[w].Locking? || b.workers[w].Copying?) :: b.workers[w].t < created)
    && (b.copying ==> b.pos < created)
  }

  lemma CoveredIsReady(cfg: Config, st: State)
    requires Inv(cfg, st) && Covered(cfg, st)
    ensures Ready(st)
  {
    forall t: nat, h | Issued(st.backup, t) && h in st.helpers
      ensures t in h.live || t < Through(h)
    {
      assert HelperOK(cfg, h);
      assert CoveredBy(st.backup, Created(cfg, h));
    }
  }

  /**
   * While a worker is idle, the tables taken whose pipe a helper has not opened are with the other workers, or
   * deferred with a snapshot. Without one, a worker that defers a table exits, and so does not get ahead.
   */
  lemma IdleWorkerBounds(cfg: Config, st: State, w: nat, s: nat)
    requires ValidConfig(cfg) && Inv(cfg, st) && w < cfg.conns - 1 && st.backup.workers[w] == B.Idle && s < cfg.segments
    ensures st.backup.next + 2 <= Through(st.helpers[s]) + cfg.conns + if cfg.snapshot then |Waiting(st.backup)| else 0
  {
    var b, low := st.backup, Through(st.helpers[s]);
    if low < b.next {
      var deferred := if cfg.snapshot then Waiting(b) else {};
      var pool := Below(cfg.conns - 1) - {w};
      var takers := Takers(b);
      forall t | t in Between(low, b.next) - deferred
        ensures t in takers && takers[t] in pool && !Passed(cfg, b.tables[t])
      {
        NotPassed(cfg, st, s, t);
        assert TakerOK(cfg, t, b.tables[t], b.workers);
      }
      SplitSize(Below(cfg.conns - 1), {w});
      UnopenedSize(low, b.next, deferred, takers, pool);
    }
  }

  ghost function Takers(b: B.State): map<nat, nat> {
    map t: nat | t < |b.tables| && b.tables[t].taker.Some? :: b.tables[t].taker.value
  }

  lemma UnopenedSize(low: nat, high: nat, deferred: set<nat>, takers: map<nat, nat>, pool: set<nat>)
    requires low <= high
    requires forall t | t in Between(low, high) - deferred :: t in takers && takers[t] in pool
    requires forall t, u | t in Between(low, high) - deferred && u in Between(low, high) - deferred && t < u ::
             takers[t] != takers[u]
    ensures high - low <= |pool| + |deferred|
  {
    var unopened := Between(low, high);
    InjectionSize(unopened - deferred, takers, pool);
    SplitSize(unopened, unopened * deferred);
    assert unopened - unopened * deferred == unopened - deferred;
    SubsetSize(unopened * deferred, deferred);
  }

  /** A table whose pipe some helper has not opened is not passed, unless it is deferred with a snapshot. */
  lemma NotPassed(cfg: Config, st: State, s: nat, t: nat)
    requires ValidConfig(cfg) && Inv(cfg, st) && s < cfg.segments && Through(st.helpers[s]) <= t < st.backup.next
    requires cfg.snapshot ==> t !in Waiting(st.backup)
    ensures !Passed(cfg, st.backup.tables[t])
  {
    var b := st.backup;
    assert ServedOK(t, b.tables[t], st.helpers[s]);
    assert B.TableOK(cfg.conns - 1, t, b.tables[t], b.next, B.Marked(Base(cfg), b.phase), b.copying && b.pos == t);
  }

  /** Nothing is deferred with a snapshot, or one table at most is, or all pipes exist from the start. */
  ghost predicate Calm(cfg: Config, st: State) {
    !cfg.snapshot || cfg.tables <= cfg.conns || |Waiting(st.backup)| <= 1
  }

  lemma InitCovered(cfg: Config)
    ensures Covered(cfg, Init(cfg))
  {
  }

  lemma StepKeepsCovered(cfg: Config, st: State, m: Move, st': State)
    requires ValidConfig(cfg) && Inv(cfg, st) && Covered(cfg, st) && Calm(cfg, st) && Step(cfg, st, m, st')
    ensures Covered(cfg, st')
  {
    forall h' | h' in st'.helpers
      ensures CoveredBy(st'.backup, Created(cfg, h'))
    {
      var s :| 0 <= s < |st'.helpers| && st'.helpers[s] == h';
      assert CoveredBy(st.backup, Created(cfg, st.helpers[s]));
      if m.Backup? {
        BackupKeepsCovered(cfg, st, m.m, st'.backup, s);
      } else {
        HelperKeepsInv(cfg, st, m, st');
      }
    }
  }

  lemma BackupKeepsCovered(cfg: Config, st: State, m: B.Move, b': B.State, s: nat)
    requires ValidConfig(cfg) && Inv(cfg, st) && Calm(cfg, st) && B.Step(Base(cfg), st.backup, m, b') &&
             s < cfg.segments
    requires CoveredBy(st.backup, Created(cfg, st.helpers[s]))
    ensures CoveredBy(b', Created(cfg, st.helpers[s]))
  {
    assert HelperOK(cfg, st.helpers[s]);
    if m.Take? {
      IdleWorkerBounds(cfg, st, m.w, s);
    } else if m.Start? && st.backup.pos > 0 {
      assert ServedOK(st.backup.pos - 1, st.backup.tables[st.backup.pos - 1], st.helpers[s]);
    }
  }

  lemma {:induction false} RunStaysCovered(cfg: Config, run: seq<State>, i: nat)
    requires ValidConfig(cfg) && IsRun(cfg, run) && i < |run| && forall j | 0 <= j < i :: Calm(cfg, run[j])
    ensures Inv(cfg, run[i]) && Covered(cfg, run[i])
  {
    RunKeepsInv(cfg, run, i);
    if i == 0 {
      InitCovered(cfg);
    } else {
      RunStaysCovered(cfg, run, i - 1);
      assert CanStep(cfg, run[i - 1], run[i]);
      var m :| Step(cfg, run[i - 1], m, run[i]);
      StepKeepsCovered(cfg, run[i - 1], m, run[i]);
    }
  }

  /**
   * As long as at most one deferred table waits for worker 0, every COPY finds its pipe; and without a snapshot,
   * or with no more tables than connections, it does so whatever is deferred.
   */
  lemma PipeReady(cfg: Config, run: seq<State>, i: nat)
    requires ValidConfig(cfg) && IsRun(cfg, run) && i < |run| && forall j | 0 <= j < i :: Calm(cfg, run[j])
    ensures Ready(run[i])
  {
    RunStaysCovered(cfg, run, i);
    CoveredIsReady(cfg, run[i]);
  }

  // ----- A run in which a COPY finds no pipe -----

  lemma Extend(cfg: Config, run: seq<State>, m: B.Move) returns (run': seq<State>)
    requires IsRun(cfg, run) && B.Shape(Base(cfg), run[|run| - 1].backup)
    requires B.CanMove(Base(cfg), run[|run| - 1].backup, m) && !m.Copied? && !m.CopiedDeferred?
    ensures IsRun(cfg, run') && B.Shape(Base(cfg), run'[|run'| - 1].backup)
    ensures run'[|run'| - 1] == run[|run| - 1].(backup := B.Next(Base(cfg), run[|run| - 1].backup, m))
  {
    var st := run[|run| - 1];
    var st' := st.(backup := B.Next(Base(cfg), st.backup, m));
    assert Step(cfg, st, Backup(m), st');
    B.StepKeepsShape(Base(cfg), st.backup, m, st'.backup);
    run' := run + [st'];
    assert CanStep(cfg, st, st');
  }

  /** The first n workers have taken the first n tables, and nothing else has happened. */
  ghost predicate FirstTaken(cfg: Config, st: State, n: nat) {
    && B.Shape(Base(cfg), st.backup) && st.backup.next == n
    && (forall w | n <= w < cfg.conns - 1 :: st.backup.workers[w] == B.Idle)
    && st.helpers == Init(cfg).helpers
  }

  lemma {:induction false} TakeFirst(cfg: Config, n: nat) returns (run: seq<State>)
    requires ValidConfig(cfg) && n <= cfg.conns - 2 && n < cfg.tables
    ensures IsRun(cfg, run) && FirstTaken(cfg, run[|run| - 1], n)
  {
    if n == 0 {
      run := [Init(cfg)];
    } else {
      run := TakeFirst(cfg, n - 1);
      run := Extend(cfg, run, B.Take(n - 1));
    }
  }

  lemma DeferNext(cfg: Config, run: seq<State>, w: nat) returns (run': seq<State>)
    requires IsRun(cfg, run) && cfg.snapshot && FirstTaken(cfg, run[|run| - 1], run[|run| - 1].backup.next)
    requires w < cfg.conns - 1 && run[|run| - 1].backup.workers[w] == B.Idle && run[|run| - 1].backup.next < cfg.tables
    ensures IsRun(cfg, run') && B.Shape(Base(cfg), run'[|run'| - 1].backup)
    ensures run'[|run'| - 1].helpers == run[|run| - 1].helpers
    ensures run'[|run'| - 1].backup.next == run[|run| - 1].backup.next + 1 &&
            run'[|run'| - 1].backup.workers[w] == B.Idle
  {
    run' := Extend(cfg, run, B.Take(w));
    run' := Extend(cfg, run', B.GiveUp(w));
  }

  /**
   * With a snapshot and more tables than connections there is always a run that fails: the other workers have a table
   * each, and the last one defers two and starts the COPY of the next, whose pipe no helper has created.
   */
  lemma DeferralOutrunsPipes(cfg: Config) returns (run: seq<State>)
    requires ValidConfig(cfg) && cfg.snapshot && cfg.tables > cfg.conns
    ensures IsRun(cfg, run) && !Ready(run[|run| - 1])
  {
    var w := cfg.conns - 2;
    run := TakeFirst(cfg, w);
    run := DeferNext(cfg, run, w);
    run := DeferNext(cfg, run, w);
    run := Extend(cfg, run, B.Take(w));
    run := Extend(cfg, run, B.Lock(w));
    var st := run[|run| - 1];
    assert B.Copying(cfg.conns) == st.backup.workers[w];
    assert Issued(st.backup, cfg.conns);
    assert st.helpers[0] in st.helpers;
  }

  /** In every run every COPY finds its pipe, if and only if there is no snapshot or there are pipes for all tables. */
  lemma AlwaysReadyIff(cfg: Config)
    requires ValidConfig(cfg)
    ensures (forall run | IsRun(cfg, run) :: Ready(run[|run| - 1])) <==> !cfg.snapshot || cfg.tables <= cfg.conns
  {
    if !cfg.snapshot || cfg.tables <= cfg.conns {
      forall run | IsRun(cfg, run)
        ensures Ready(run[|run| - 1])
      {
        PipeReady(cfg, run, |run| - 1);
      }
    } else {
      var run := DeferralOutrunsPipes(cfg);
    }
  }

  // ----- Every run ends well -----

  ghost predicate Done(cfg: Config, st: State) {
    st.backup.phase == B.Finished && forall h | h in st.helpers :: h.pos == cfg.tables
  }

  /** The helper that is furthest behind. */
  lemma {:induction false} Slowest(helpers: seq<Helper>, n: nat) returns (s: nat)
    requires 0 < n <= |helpers|
    ensures s < n && forall r | 0 <= r < n :: Through(helpers[s]) <= Through(helpers[r])
  {
    if n == 1 {
      s := 0;
    } else {
      s := Slowest(helpers, n - 1);
      if Through(helpers[n - 1]) < Through(helpers[s]) {
        s := n - 1;
      }
    }
  }

  /** A table whose pipe every helper has opened and that is not complete is in a COPY that can return. */
  lemma ReadCanReturn(cfg: Config, st: State, t: nat) returns (m: B.Move)
    requires ValidConfig(cfg) && Inv(cfg, st) && t < cfg.tables && OpenedEverywhere(st, t)
    requires st.backup.tables[t].status != B.Complete
    ensures B.CanMove(Base(cfg), st.backup, m) && Permitted(st, m)
  {
    var b := st.backup;
    var e := b.tables[t];
    assert st.helpers[0] in st.helpers && ServedOK(t, e, st.helpers[0]);
    assert B.TableOK(cfg.conns - 1, t, e, b.next, B.Marked(Base(cfg), b.phase), b.copying && b.pos == t);
    if e.status == B.Deferred {
      m := B.CopiedDeferred(0);
    } else {
      var w := e.holder.value;
      assert B.LinkOK(w, b.workers[w], t, e);
      m := B.Copied(w, 0);
    }
  }

  /** Some table whose pipes are all opened is not complete, or worker 0 can go on, until all of them are complete. */
  lemma BehindCanMove(cfg: Config, st: State, t: nat) returns (m: B.Move)
    requires ValidConfig(cfg) && Inv(cfg, st) && t <= cfg.tables && st.backup.pos < t
    requires forall u: nat | u < t :: OpenedEverywhere(st, u)
    ensures B.CanMove(Base(cfg), st.backup, m) && Permitted(st, m)
  {
    if st.backup.tables[st.backup.pos].status != B.Complete {
      m := ReadCanReturn(cfg, st, st.backup.pos);
    } else {
      m := B.Pass;
      assert !st.backup.copying;
    }
  }

  /** A table no helper is past and no one copies: its worker, an idle worker, worker 0 or the main goroutine moves. */
  lemma AwaitedCanMove(cfg: Config, st: State, t: nat) returns (m: B.Move)
    requires ValidConfig(cfg) && Inv(cfg, st) && t < cfg.tables && t <= st.backup.pos
    requires forall u: nat | u < t :: OpenedEverywhere(st, u)
    requires st.backup.tables[t].status != B.Complete && !Issued(st.backup, t)
    ensures B.CanMove(Base(cfg), st.backup, m) && Permitted(st, m)
  {
    var b := st.backup;
    var e := b.tables[t];
    assert B.TableOK(cfg.conns - 1, t, e, b.next, B.Marked(Base(cfg), b.phase), b.copying && b.pos == t);
    if e.status == B.Deferred {
      m := B.Start;
    } else if t < b.next {
      assert B.LinkOK(e.holder.value, b.workers[e.holder.value], t, e);
      m := B.Lock(e.holder.value);
    } else if w: nat :| w < cfg.conns - 1 && b.workers[w] != B.Exited {
      match b.workers[w]
      case Idle => m := B.Take(w);
      case Locking(_) => m := B.Lock(w);
      case Copying(u) => m := B.Copied(w, 0);
    } else {
      assert B.WorkerOK(Base(cfg), b.workers[0], b.next, b.phase);
      m := B.Proceed;
    }
  }

  lemma NeverStuck(cfg: Config, st: State) returns (m: Move, st': State)
    requires ValidConfig(cfg) && Inv(cfg, st) && !Done(cfg, st)
    ensures Step(cfg, st, m, st')
  {
    if s: nat :| s < |st.helpers| && st.helpers[s].stage == Reading {
      m, st' := DropPipe(s), SetHelper(st, s, Dropped(st.helpers[s]));
    } else if s: nat :| s < |st.helpers| && st.helpers[s].stage == Create && st.helpers[s].pos < cfg.tables {
      m, st' := MakePipe(s), SetHelper(st, s, Made(cfg, st.helpers[s]));
    } else {
      var s := Slowest(st.helpers, |st.helpers|);
      var t := st.helpers[s].pos;
      assert HelperOK(cfg, st.helpers[s]);
      if t < cfg.tables && Issued(st.backup, t) {
        m, st' := OpenPipe(s), SetHelper(st, s, st.helpers[s].(stage := Reading));
      } else {
        var b := BackupCanMove(cfg, st, s);
        m, st' := Backup(b), st.(backup := B.Next(Base(cfg), st.backup, b));
      }
    }
  }

  /** When the slowest helper waits for its table, or all helpers are through, the backup itself can move. */
  lemma BackupCanMove(cfg: Config, st: State, s: nat) returns (m: B.Move)
    requires ValidConfig(cfg) && Inv(cfg, st) && !Done(cfg, st) && s < |st.helpers|
    requires forall r | 0 <= r < |st.helpers| ::
             st.helpers[r].stage != Reading && st.helpers[s].pos <= st.helpers[r].pos
    requires st.helpers[s].pos < cfg.tables ==> !Issued(st.backup, st.helpers[s].pos)
    ensures B.CanMove(Base(cfg), st.backup, m) && Permitted(st, m)
  {
    var b, t := st.backup, st.helpers[s].pos;
    assert HelperOK(cfg, st.helpers[s]);
    forall u: nat | u < t
      ensures OpenedEverywhere(st, u)
    {
    }
    if b.pos < t {
      m := BehindCanMove(cfg, st, t);
    } else if t < cfg.tables {
      assert ServedOK(t, b.tables[t], st.helpers[s]);
      m := AwaitedCanMove(cfg, st, t);
    } else {
      assert forall h | h in st.helpers :: h.pos == cfg.tables by {
        forall h | h in st.helpers
          ensures h.pos == cfg.tables
        {
          assert HelperOK(cfg, h);
        }
      }
      m := LeavingCanMove(cfg, st);
    }
  }

  /** With all tables complete the workers leave and the main goroutine finishes. */
  lemma LeavingCanMove(cfg: Config, st: State) returns (m: B.Move)
    requires ValidConfig(cfg) && Inv(cfg, st) && st.backup.pos == cfg.tables && st.backup.phase != B.Finished
    ensures B.CanMove(Base(cfg), st.backup, m) && Permitted(st, m)
  {
    var b := st.backup;
    if w: nat :| w < cfg.conns - 1 && b.workers[w] != B.Exited {
      if b.workers[w].Locking? || b.workers[w].Copying? {
        B.KeepsEarlierComplete(Base(cfg), b, w);
        assert false;
      }
      m := if b.next < cfg.tables then B.Take(w) else B.Leave(w);
    } else {
      m := B.Proceed;
    }
  }

  function HelperWork(cfg: Config, h: Helper): int {
    3 * (cfg.tables - h.pos) - match h.stage case Create => 0 case Open => 1 case Reading => 2
  }

  ghost function Work(cfg: Config, st: State): int {
    B.Work(Base(cfg), st.backup) + SumTo(st.helpers, h => HelperWork(cfg, h), |st.helpers|)
  }

  lemma StepWorks(cfg: Config, st: State, m: Move, st': State)
    requires Step(cfg, st, m, st')
    ensures Work(cfg, st') < Work(cfg, st)
  {
    if m.Backup? {
      B.StepWorks(Base(cfg), st.backup, m.m, st'.backup);
    } else {
      SumToUpdate(st.helpers, h => HelperWork(cfg, h), |st.helpers|, m.s, st'.helpers[m.s]);
    }
  }

  lemma WorkLeft(cfg: Config, st: State)
    requires Inv(cfg, st)
    ensures Work(cfg, st) >= 0
  {
    B.WorkLeft(Base(cfg), st.backup);
    forall s | 0 <= s < |st.helpers|
      ensures 0 <= HelperWork(cfg, st.helpers[s]) <= 3 * cfg.tables
    {
      assert HelperOK(cfg, st.helpers[s]);
    }
    SumToWithin(st.helpers, h => HelperWork(cfg, h), |st.helpers|, 0, 3 * cfg.tables);
  }

  lemma {:induction false} RunsEnd(cfg: Config, run: seq<State>, i: nat)
    requires ValidConfig(cfg) && IsRun(cfg, run) && i < |run|
    ensures 0 <= Work(cfg, run[i]) <= Work(cfg, run[0]) - i
  {
    RunKeepsInv(cfg, run, i);
    WorkLeft(cfg, run[i]);
    if i > 0 {
      RunsEnd(cfg, run, i - 1);
      assert CanStep(cfg, run[i - 1], run[i]);
      var m :| Step(cfg, run[i - 1], m, run[i]);
      StepWorks(cfg, run[i - 1], m, run[i]);
    }
  }

  ghost predicate Blocked(cfg: Config, st: State) {
    forall m, next :: !Step(cfg, st, m, next)
  }

  /** A helper has created and deleted the pipe of every table exactly once, and none is left. */
  ghost predicate Emptied(cfg: Config, h: Helper) {
    && CountsUp(h.made) && |h.made| == cfg.tables
    && CountsUp(h.dropped) && |h.dropped| == cfg.tables
    && h.live == {}
  }

  /**
   * Whatever is deferred, as long as no COPY fails for want of its pipe the backup cannot deadlock: every run ends,
   * and one that cannot go on has copied every table once, and its helpers have left no pipe.
   */
  lemma EveryRunCompletes(cfg: Config, run: seq<State>)
    requires ValidConfig(cfg) && IsRun(cfg, run)
    ensures |run| <= Work(cfg, run[0]) + 1
    ensures Blocked(cfg, run[|run| - 1]) ==>
              && Done(cfg, run[|run| - 1]) && B.AllCopiedOnce(Base(cfg), run[|run| - 1].backup)
              && forall h | h in run[|run| - 1].helpers :: Emptied(cfg, h)
  {
    var st := run[|run| - 1];
    RunsEnd(cfg, run, |run| - 1);
    RunKeepsInv(cfg, run, |run| - 1);
    if Blocked(cfg, st) {
      if !Done(cfg, st) {
        var m, next := NeverStuck(cfg, st);
        assert false;
      }
      B.FinishedIsCopied(Base(cfg), st.backup);
      forall h | h in st.helpers
        ensures Emptied(cfg, h)
      {
        assert HelperOK(cfg, h);
      }
    }
  }
}

/** Whether the pipe of a COPY exists when the COPY is issued, and restores with a helper for every worker. */
module PipeReadiness {
  import opened Collections
  import opened OidLists
  import opened CopyPipes

  // ----- The pipe of a COPY is there when the COPY is issued -----

  /** The pipes created before the helpers start cover one round of the workers, or everything. */
  predicate WideQueue(cfg: Config)
    requires cfg.conns > 0
  {
    cfg.queue == Len(cfg) || cfg.queue >= (cfg.conns - 1) * cfg.batches + 1
  }

  /** A worker is not as far as the pipes the helpers have created. */
  ghost predicate Covered(cfg: Config, st: State, w: nat) {
    forall s | 0 <= s < |st.helpers| && w < |st.workers| && Active(cfg, st.workers[w]) ::
      Cur(cfg, st.workers[w]) < Through(st.helpers[s]) + cfg.queue
  }

  lemma InitCovered(cfg: Config, w: nat)
    requires ValidConfig(cfg) && WideQueue(cfg) && w < cfg.conns
    ensures Covered(cfg, Init(cfg), w)
  {
    if w < |cfg.replicated| {
      StartMonotone(cfg, 0, w);
      StartBefore(cfg, w, |cfg.replicated|);
      TimesMonotone(w, cfg.conns - 1, cfg.batches);
    }
  }

  lemma StepKeepsCovered(cfg: Config, st: State, m: Move, st': State, w: nat)
    requires ValidConfig(cfg) && WideQueue(cfg) && Inv(cfg, st) && w < cfg.conns && Covered(cfg, st, w)
    requires Step(cfg, st, m, st') && !st.workers[w].failing
    ensures Covered(cfg, st', w)
  {
    if m == Complete(w) {
      var wk := st.workers[w];
      assert WorkerOK(cfg, w, wk);
      AfterCopyMoves(cfg, w, wk);
      forall s | 0 <= s < |st'.helpers| && Active(cfg, st'.workers[w])
        ensures Cur(cfg, st'.workers[w]) < Through(st'.helpers[s]) + cfg.queue
      {
        assert wk.copying.value[s] == Finished;
        WaitsAhead(cfg, st, w, s);
        ActiveBelowLen(cfg, st'.workers[w]);
      }
    } else {
      OthersKeepPlace(cfg, st, m, st', w);
    }
  }

  /** A worker stays where it is while others move, and helpers never go back. */
  lemma OthersKeepPlace(cfg: Config, st: State, m: Move, st': State, w: nat)
    requires cfg.conns > 0 && Inv(cfg, st) && Step(cfg, st, m, st') && w < cfg.conns
    requires m != Complete(w) && m != GiveUp(w)
    ensures |st'.helpers| == |st.helpers| && |st'.workers| == |st.workers|
    ensures Cur(cfg, st'.workers[w]) == Cur(cfg, st.workers[w])
    ensures Active(cfg, st'.workers[w]) == Active(cfg, st.workers[w])
    ensures forall s | 0 <= s < |st.helpers| :: Through(st.helpers[s]) <= Through(st'.helpers[s])
  {
  }

  lemma {:induction false} RunStaysCovered(cfg: Config, run: seq<State>, i: nat, w: nat)
    requires ValidConfig(cfg) && WideQueue(cfg) && IsRun(cfg, run) && i < |run| && w < cfg.conns
    requires forall j | 0 <= j <= i :: |run[j].workers| == cfg.conns && !run[j].workers[w].failing
    ensures Inv(cfg, run[i]) && Covered(cfg, run[i], w)
  {
    RunKeepsInv(cfg, run, i);
    if i == 0 {
      InitCovered(cfg, w);
    } else {
      RunStaysCovered(cfg, run, i - 1, w);
      assert CanStep(cfg, run[i - 1], run[i]);
      var m :| Step(cfg, run[i - 1], m, run[i]);
      StepKeepsCovered(cfg, run[i - 1], m, run[i], w);
    }
  }

  /**
   * As long as none of its own COPYs fails, a worker's COPY finds its pipe on every segment the moment it is issued,
   * until that segment is done, whatever happens to the other workers.
   */
  lemma PipeReadyWhenIssued(cfg: Config, run: seq<State>, i: nat, w: nat, s: nat)
    requires ValidConfig(cfg) && WideQueue(cfg) && IsRun(cfg, run) && i < |run|
    requires w < cfg.conns && s < cfg.segments
    requires forall j | 0 <= j <= i :: |run[j].workers| == cfg.conns && !run[j].workers[w].failing
    requires |run[i].helpers| == cfg.segments && Active(cfg, run[i].workers[w])
    ensures Cur(cfg, run[i].workers[w]) in run[i].helpers[s].live || FinishedOn(run[i].workers[w], s)
  {
    RunStaysCovered(cfg, run, i, w);
    PlaceIsLive(cfg, run[i], w, s);
  }

  lemma PlaceIsLive(cfg: Config, st: State, w: nat, s: nat)
    requires ValidConfig(cfg) && Inv(cfg, st) && w < cfg.conns && s < cfg.segments && Active(cfg, st.workers[w])
    requires !st.workers[w].failing && Cur(cfg, st.workers[w]) < Through(st.helpers[s]) + cfg.queue
    ensures Cur(cfg, st.workers[w]) in st.helpers[s].live || FinishedOn(st.workers[w], s)
  {
    WaitsAhead(cfg, st, w, s);
    assert HelperOK(cfg, st.helpers[s]);
  }

  /** The coordinator's choice of how many pipes to create, min(connections * batches, items), is wide enough. */
  lemma InitialPipesAreEnough(cfg: Config)
    requires cfg.batches >= 1 && cfg.conns >= 1 && cfg.segments >= 1 && Len(cfg) >= 1
    requires cfg.queue == InitialPipes(Len(cfg), cfg.conns * cfg.batches)
    ensures ValidConfig(cfg) && WideQueue(cfg)
  {
  }

  // ----- Pipes when COPYs fail -----

  /** Every COPY that is running finds its pipe on the segments that are not done with it. */
  ghost predicate Ready(cfg: Config, st: State) {
    forall w, s | 0 <= w < |st.workers| && 0 <= s < |st.helpers| && st.workers[w].copying.Some? ::
      Cur(cfg, st.workers[w]) in st.helpers[s].live || FinishedOn(st.workers[w], s)
  }

  /** Every table starts among the pipes created before the helpers start. */
  predicate EarlyTables(cfg: Config) {
    forall t | 0 <= t < |cfg.replicated| :: Start(cfg, t) < cfg.queue
  }

  lemma EarlyTablesReady(cfg: Config, st: State)
    requires ValidConfig(cfg) && Inv(cfg, st) && EarlyTables(cfg)
    ensures Ready(cfg, st)
  {
    forall w, s | 0 <= w < |st.workers| && 0 <= s < |st.helpers| && st.workers[w].copying.Some?
      ensures Cur(cfg, st.workers[w]) in st.helpers[s].live || FinishedOn(st.workers[w], s)
    {
      var wk := st.workers[w];
      assert WorkerOK(cfg, w, wk);
      WaitsAhead(cfg, st, w, s);
      if wk.batch > 0 {
        assert PairOK(cfg, st.helpers[s], s, w, wk);
        assert OwnItem(cfg, w, wk.table, wk.batch - 1);
        assert PastOn(cfg, wk, s, Start(cfg, wk.table) + (wk.batch - 1));
      }
      PlaceIsLive(cfg, st, w, s);
    }
  }

  lemma Extend(cfg: Config, run: seq<State>, m: Move, next: State) returns (run': seq<State>)
    requires IsRun(cfg, run) && Step(cfg, run[|run| - 1], m, next)
    ensures IsRun(cfg, run') && run'[|run'| - 1] == next
  {
    run' := run + [next];
    assert CanStep(cfg, run'[|run| - 1], run'[|run|]);
    forall i, j | 0 <= i < j < |run'| && j == i + 1
      ensures CanStep(cfg, run'[i], run'[j])
    {
      if j < |run| {
        assert run'[i] == run[i] && run'[j] == run[j];
      }
    }
  }

  /** The helpers have not started, and worker w is at a table. */
  ghost predicate AtTable(cfg: Config, st: State, w: nat, t: nat, failing: bool) {
    && |st.helpers| == cfg.segments && |st.workers| == cfg.conns && w < cfg.conns
    && (forall s | 0 <= s < cfg.segments :: st.helpers[s].live == Below(cfg.queue))
    && st.workers[w] == Worker(t, 0, None, failing)
  }

  predicate HasSkipFile(h: Helper, t: nat) {
    t in h.skipFiles
  }

  ghost predicate TouchedTo(st: State, t: nat, n: nat) {
    n <= |st.helpers| && forall s | 0 <= s < n :: HasSkipFile(st.helpers[s], t)
  }

  /** With the COPY of its table failed, a worker leaves skip files on the first n segments. */
  lemma {:induction false} TouchFirst(cfg: Config, run: seq<State>, w: nat, t: nat, n: nat) returns (run': seq<State>)
    requires IsRun(cfg, run) && AtTable(cfg, run[|run| - 1], w, t, true) && t < |cfg.replicated| && n <= cfg.segments
    ensures IsRun(cfg, run') && AtTable(cfg, run'[|run'| - 1], w, t, true)
    ensures TouchedTo(run'[|run'| - 1], t, n)
    decreases n
  {
    if n == 0 {
      run' := run;
    } else {
      run' := TouchFirst(cfg, run, w, t, n - 1);
      var st := run'[|run'| - 1];
      if t !in st.helpers[n - 1].skipFiles {
        run' := Extend(cfg, run', Touch(w, n - 1), Touched(st, n - 1, t));
      }
    }
  }

  /** A worker whose COPYs all fail at once gets to any of its tables while the helpers have not started. */
  lemma {:induction false} FailTo(cfg: Config, t: nat) returns (run: seq<State>)
    requires ValidConfig(cfg) && t < |cfg.replicated|
    ensures IsRun(cfg, run) && AtTable(cfg, run[|run| - 1], Owner(cfg.conns, t), t, false)
  {
    var w := Owner(cfg.conns, t);
    if t < cfg.conns {
      run := [Init(cfg)];
    } else {
      var u := t - cfg.conns;
      run := FailTo(cfg, u);
      var st := run[|run| - 1];
      var issued := SetWorker(st, w, st.workers[w].(copying := Some(seq(cfg.segments, s => Waiting))));
      run := Extend(cfg, run, Issue(w), issued);
      run := Extend(cfg, run, Fail(w), SetWorker(issued, w, Worker(u, 0, None, true)));
      run := TouchFirst(cfg, run, w, u, cfg.segments);
      st := run[|run| - 1];
      forall h | h in st.helpers
        ensures u in h.skipFiles
      {
        var s :| 0 <= s < |st.helpers| && st.helpers[s] == h;
        assert HasSkipFile(st.helpers[s], u);
      }
      run := Extend(cfg, run, GiveUp(w), SetWorker(st, w, AfterTable(cfg, st.workers[w])));
    }
  }

  /**
   * Whatever fails, every COPY finds its pipe at once if and only if every table starts among the first pipes. Where
   * one does not, a worker that fails often enough gets ahead of the helpers and its COPY has to wait for its pipe.
   */
  lemma AlwaysReadyIff(cfg: Config)
    requires ValidConfig(cfg)
    ensures (forall run | IsRun(cfg, run) :: Ready(cfg, run[|run| - 1])) <==> EarlyTables(cfg)
  {
    if EarlyTables(cfg) {
      forall run | IsRun(cfg, run)
        ensures Ready(cfg, run[|run| - 1])
      {
        RunKeepsInv(cfg, run, |run| - 1);
        EarlyTablesReady(cfg, run[|run| - 1]);
      }
    } else {
      var t :| 0 <= t < |cfg.replicated| && Start(cfg, t) >= cfg.queue;
      var run := FailTo(cfg, t);
      var w, st := Owner(cfg.conns, t), run[|run| - 1];
      var issued := SetWorker(st, w, st.workers[w].(copying := Some(seq(cfg.segments, s => Waiting))));
      run := Extend(cfg, run, Issue(w), issued);
      assert Cur(cfg, issued.workers[w]) !in issued.helpers[0].live && !FinishedOn(issued.workers[w], 0);
    }
  }

  // ----- A helper for every worker -----

  /** The items a worker copies, from where it is, in order. */
  ghost function WorkerWalk(oids: seq<nat>, cfg: Config, wk: Worker): seq<Item>
    requires |oids| == |cfg.replicated| && cfg.conns >= 1 && cfg.batches >= 1
    requires Active(cfg, wk) ==> wk.batch < BatchesOf(cfg, wk.table)
    decreases |oids| + cfg.conns - wk.table, BatchesOf(cfg, wk.table) - wk.batch
  {
    if !Active(cfg, wk) then [] else [Item(oids[wk.table], wk.batch)] + WorkerWalk(oids, cfg, AfterCopy(cfg, wk))
  }

  lemma {:induction false} WalkIsList(oids: seq<nat>, cfg: Config, t: nat, b: nat)
    requires |oids| == |cfg.replicated| && cfg.conns >= 1 && cfg.batches >= 1 && t < |oids| && b < BatchesOf(cfg, t)
    ensures WorkerWalk(oids, cfg, Worker(t, b, None, false)) ==
            seq(BatchesOf(cfg, t), c requires 0 <= c => Item(oids[t], c))[b..] +
              OidList(oids, cfg, t + cfg.conns, cfg.conns)
    decreases |oids| - t, BatchesOf(cfg, t) - b
  {
    if b + 1 < BatchesOf(cfg, t) {
      WalkIsList(oids, cfg, t, b + 1);
    } else if t + cfg.conns < |oids| {
      WalkIsList(oids, cfg, t + cfg.conns, 0);
    }
  }

  /** Every stride-th element from the k-th on. */
  function Stride<T>(s: seq<T>, k: nat, stride: nat): seq<T>
    requires stride > 0
    decreases |s| + stride - k
  {
    if k >= |s| then [] else [s[k]] + Stride(s, k + stride, stride)
  }

  lemma {:induction false} StrideSize<T, U>(s: seq<T>, r: seq<U>, k: nat, stride: nat)
    requires stride > 0 && |s| == |r|
    ensures |Stride(s, k, stride)| == |Stride(r, k, stride)|
    decreases |s| + stride - k
  {
    if k < |s| {
      StrideSize(s, r, k + stride, stride);
    }
  }

  /** The protocol between one worker and the helper that serves only it, with a window of one pipe. */
  function OwnConfig(cfg: Config, k: nat, maxHelpers: nat): Config
    requires maxHelpers > 0
  {
    Config(Stride(cfg.replicated, k, maxHelpers), cfg.batches, 1, 1, cfg.segments)
  }

  lemma {:induction false} StrideList(oids: seq<nat>, cfg: Config, t: nat, stride: nat, own: seq<nat>, ownCfg: Config,
                                      u: nat)
    requires |oids| == |cfg.replicated| && stride > 0 && |own| == |ownCfg.replicated| && u <= |own|
    requires ownCfg.batches == cfg.batches
    requires own[u..] == Stride(oids, t, stride) && ownCfg.replicated[u..] == Stride(cfg.replicated, t, stride)
    ensures OidList(own, ownCfg, u, 1) == OidList(oids, cfg, t, stride)
    decreases |own| - u
  {
    if u < |own| {
      DropOne(own, u);
      DropOne(ownCfg.replicated, u);
      assert t < |oids| && own[u] == oids[t] && ownCfg.replicated[u] == cfg.replicated[t];
      StrideList(oids, cfg, t + stride, stride, own, ownCfg, u + 1);
    }
  }

  /**
   * Without a single data file a resize restore gives every worker that has a table a helper of its own. The list of
   * that helper is exactly the walk of the worker, and the two are a run of the protocol with one connection and a
   * window of one pipe, for which that window is wide enough: so they cannot deadlock, and every COPY finds its pipe.
   */
  lemma HelperServesItsWorker(oids: seq<nat>, cfg: Config, k: nat, maxHelpers: nat)
    requires |oids| == |cfg.replicated| && cfg.conns >= 1 && cfg.batches >= 1 && cfg.segments >= 1
    requires maxHelpers == if cfg.conns < |oids| then cfg.conns else |oids|
    requires k < maxHelpers
    ensures OidList(oids, cfg, k, maxHelpers) == WorkerWalk(oids, cfg, FirstItem(k))
    ensures |Stride(oids, k, maxHelpers)| == |OwnConfig(cfg, k, maxHelpers).replicated|
    ensures OidList(Stride(oids, k, maxHelpers), OwnConfig(cfg, k, maxHelpers), 0, 1) ==
            OidList(oids, cfg, k, maxHelpers)
    ensures ValidConfig(OwnConfig(cfg, k, maxHelpers)) && WideQueue(OwnConfig(cfg, k, maxHelpers))
  {
    var own := OwnConfig(cfg, k, maxHelpers);
    StrideSize(oids, cfg.replicated, k, maxHelpers);
    StrideList(oids, cfg, k, maxHelpers, Stride(oids, k, maxHelpers), own, 0);
    WalkIsList(oids, cfg, k, 0);
    if maxHelpers != cfg.conns {
      assert OidList(oids, cfg, k + maxHelpers, maxHelpers) == [] == OidList(oids, cfg, k + cfg.conns, cfg.conns);
    }
    assert Start(own, 0) == 0 && Start(own, 1) == BatchesOf(own, 0) >= 1;
    StartMonotone(own, 1, |own.replicated|);
  }
}

/** The parallel pre-data restore: phases, connections, and every interleaving of their statements. */
module PredataRestore {
  import opened Collections
  import opened DependencyGraph
  import opened Cohorts
  import opened DependencySort
  import opened StatementSchedule

  /** What each connection executes in one phase; connection numbers are indices. */
  type Phase = seq<seq<Statement>>

  ghost function Bag(lanes: Phase): multiset<Statement> {
    if lanes == [] then multiset{}
    else
      var n := |lanes| - 1;
      Bag(lanes[..n]) + multiset(lanes[n])
  }

  /** What the first n phases execute. */
  ghost function TotalTo(plan: seq<Phase>, n: nat): multiset<Statement>
    requires n <= |plan|
  {
    if n == 0 then multiset{} else TotalTo(plan, n - 1) + Bag(plan[n - 1])
  }

  ghost function Total(plan: seq<Phase>): multiset<Statement> {
    TotalTo(plan, |plan|)
  }

  function Serial(statements: seq<Statement>, numConns: nat): Phase
    requires numConns > 0
  {
    seq(numConns, c => if c == 0 then statements else [])
  }

  function LanesOf(split: map<nat, seq<Statement>>, numConns: nat): Phase {
    seq(numConns, c requires 0 <= c => Lane(split, c))
  }

  ghost predicate IsParallelPhase(statements: seq<Statement>, numConns: nat, phase: Phase) {
    exists split, pins :: Scheduled(statements, numConns, split, pins) && phase == LanesOf(split, numConns)
  }

  /** The phases of a restore: untiered, tier 1 .. number of tiers, untiered again. */
  ghost predicate IsPlan(all: seq<Statement>, numConns: nat, plan: seq<Phase>)
    requires numConns > 0
  {
    var k := |Depths(all)|;
    && |plan| == k + 2
    && plan[0] == Serial(LeadingZero(all), numConns)
    && (forall t {:trigger IsParallelPhase(OfTier(all, t), numConns, plan[t])} | 1 <= t <= k ::
        IsParallelPhase(OfTier(all, t), numConns, plan[t]))
    && plan[k + 1] == Serial(TrailingZero(all), numConns)
  }

  /** The plan so far: the leading statements and the tiers below t. */
  ghost predicate PlanTo(all: seq<Statement>, numConns: nat, plan: seq<Phase>, t: nat)
    requires numConns > 0
  {
    && |plan| == t >= 1
    && plan[0] == Serial(LeadingZero(all), numConns)
    && forall u {:trigger IsParallelPhase(OfTier(all, u), numConns, plan[u])} | 1 <= u < t ::
       IsParallelPhase(OfTier(all, u), numConns, plan[u])
  }

  lemma PlanTier(all: seq<Statement>, numConns: nat, plan: seq<Phase>, t: nat, tier: seq<Statement>,
                 split: map<nat, seq<Statement>>, pins: map<nat, nat>)
    requires numConns > 0 && PlanTo(all, numConns, plan, t)
    requires Scheduled(tier, numConns, split, pins) && tier == OfTier(all, t)
    ensures PlanTo(all, numConns, plan + [LanesOf(split, numConns)], t + 1)
  {
  }

  lemma PlanEnds(all: seq<Statement>, numConns: nat, plan: seq<Phase>)
    requires numConns > 0 && PlanTo(all, numConns, plan, |Depths(all)| + 1)
    ensures IsPlan(all, numConns, plan + [Serial(TrailingZero(all), numConns)])
  {
  }

  // ----- The plan in terms of the list as it is -----

  /** The positive tiers of the statements. */
  ghost function TiersUsed(statements: seq<Statement>): set<nat> {
    set i | 0 <= i < |statements| && PositiveAt(statements, i) :: statements[i].tier[0]
  }

  ghost predicate OnFirstOnly(phase: Phase, numConns: nat) {
    |phase| == numConns && forall c | 0 < c < numConns :: phase[c] == []
  }

  /** The lanes of a phase share the statements of tier t among them, each lane in file order. */
  ghost predicate TierPlanned(statements: seq<Statement>, phase: Phase, t: nat) {
    exists tier :: Picks(statements, tier, InTier(statements, |statements|, t)) && SharesInOrder(tier, phase)
  }

  ghost predicate SharesInOrder(tier: seq<Statement>, phase: Phase) {
    Bag(phase) == multiset(tier) && forall c | 0 <= c < |phase| :: TakesSomeInOrder(tier, phase[c])
  }

  ghost predicate TakesSomeInOrder(tier: seq<Statement>, lane: seq<Statement>) {
    exists wanted :: TakesInOrder(tier, lane, wanted)
  }

  /**
   * Statements without a positive tier are in the first phase if none with one comes before them, and else in the
   * last; the others are in the phase of their tier, if there are that many tiers.
   */
  ghost predicate PlannedFromList(statements: seq<Statement>, numConns: nat, plan: seq<Phase>)
    requires numConns > 0
  {
    && |plan| == |TiersUsed(statements)| + 2
    && OnFirstOnly(plan[0], numConns) && Picks(statements, plan[0][0], Leading(statements, |statements|))
    && OnFirstOnly(plan[|plan| - 1], numConns)
    && Picks(statements, plan[|plan| - 1][0], Trailing(statements, |statements|))
    && forall t | 1 <= t < |plan| - 1 :: TierPlanned(statements, plan[t], t)
  }

  lemma ParallelShares(tier: seq<Statement>, numConns: nat, phase: Phase)
    requires IsParallelPhase(tier, numConns, phase)
    ensures SharesInOrder(tier, phase)
  {
    ParallelBag(tier, numConns, phase);
    var split, pins :| Scheduled(tier, numConns, split, pins) && phase == LanesOf(split, numConns);
    LanesInFileOrder(tier, split, pins);
    forall c | 0 <= c < |phase|
      ensures TakesSomeInOrder(tier, phase[c])
    {
      assert TakesInOrder(tier, Lane(split, c), PinnedTo(tier, |tier|, pins, c));
    }
  }

  lemma DepthsAreUsed(statements: seq<Statement>)
    ensures Depths(Normalized(statements)) == TiersUsed(statements)
  {
    forall t: nat
      ensures t in Depths(Normalized(statements)) <==> t in TiersUsed(statements)
    {
      DepthInList(statements, t);
      if t in TiersUsed(statements) {
        var i :| 0 <= i < |statements| && PositiveAt(statements, i) && statements[i].tier[0] == t;
        assert i in InTier(statements, |statements|, t);
      }
      if t > 0 && InTier(statements, |statements|, t) != {} {
        var i :| i in InTier(statements, |statements|, t);
        assert PositiveAt(statements, i) && statements[i].tier[0] == t;
      }
    }
  }

  lemma PlanIsFromList(statements: seq<Statement>, numConns: nat, plan: seq<Phase>)
    requires numConns > 0 && IsPlan(Normalized(statements), numConns, plan)
    ensures PlannedFromList(statements, numConns, plan)
  {
    var all := Normalized(statements);
    GroupsArePicked(statements);
    DepthsAreUsed(statements);
    forall t | 1 <= t < |plan| - 1
      ensures TierPlanned(statements, plan[t], t)
    {
      assert IsParallelPhase(OfTier(all, t), numConns, plan[t]);
      ParallelShares(OfTier(all, t), numConns, plan[t]);
    }
  }

  lemma AllPicked(statements: seq<Statement>, picked: seq<Statement>)
    requires Picks(statements, picked, Below(|statements|))
    ensures |picked| == |statements| && forall i | 0 <= i < |statements| :: PickedAs(statements[i], picked[i])
  {
    var idx :| ListsIndices(idx, Below(|statements|)) && |idx| == |picked| && PickedAt(statements, picked, idx);
    AllIndices(idx, |statements|);
  }

  lemma NonePicked(statements: seq<Statement>, picked: seq<Statement>)
    requires Picks(statements, picked, {})
    ensures picked == []
  {
    var idx: seq<nat> :| ListsIndices(idx, {}) && |idx| == |picked| && PickedAt(statements, picked, idx);
    ElemsEmpty<nat>(idx);
  }

  /** A list without positive tiers is planned completely, in file order, in the first phase. */
  lemma UntieredPlan(statements: seq<Statement>, numConns: nat, plan: seq<Phase>)
    requires numConns > 0 && PlannedFromList(statements, numConns, plan)
    requires forall i | 0 <= i < |statements| :: !PositiveAt(statements, i)
    ensures |plan| == 2 && plan[1][0] == [] && |plan[0][0]| == |statements|
    ensures forall i | 0 <= i < |statements| :: PickedAs(statements[i], plan[0][0][i])
  {
    assert TiersUsed(statements) == {};
    assert Trailing(statements, |statements|) == {};
    assert Leading(statements, |statements|) == Below(|statements|);
    AllPicked(statements, plan[0][0]);
    NonePicked(statements, plan[1][0]);
  }

  /** The tier loop of restorePredata. Its counter runs from 1 to the number of tiers, not over the tiers. */
  method PlanPredata(statements: seq<Statement>, numConns: nat) returns (plan: seq<Phase>)
    requires numConns >= 2
    ensures IsPlan(Normalized(statements), numConns, plan)
    ensures PlannedFromList(statements, numConns, plan)
    ensures (forall i | 0 <= i < |statements| :: !PositiveAt(statements, i)) ==>
              && |plan| == 2 && plan[1][0] == [] && |plan[0][0]| == |statements|
              && forall i | 0 <= i < |statements| :: PickedAs(statements[i], plan[0][0][i])
  {
    var first, tiered, last := BatchPredataStatements(statements);
    ghost var all := Normalized(statements);
    plan := [Serial(first, numConns)];
    var t := 1;
    var size := |tiered|;
    assert size == |tiered.Keys| == |Depths(all)|;
    while t <= size
      invariant 1 <= t <= size + 1
      invariant PlanTo(all, numConns, plan, t)
    {
      AbsentTierEmpty(all, t);
      var split, pins := ScheduleStatementsOnWorkers(TierOf(tiered, t), numConns);
      PlanTier(all, numConns, plan, t, TierOf(tiered, t), split, pins);
      plan := plan + [LanesOf(split, numConns)];
      t := t + 1;
    }
    PlanEnds(all, numConns, plan);
    plan := plan + [Serial(last, numConns)];
    PlanIsFromList(statements, numConns, plan);
    if forall i | 0 <= i < |statements| :: !PositiveAt(statements, i) {
      UntieredPlan(statements, numConns, plan);
    }
  }

  lemma {:induction false} AbsentTierEmpty(all: seq<Statement>, t: nat)
    requires t > 0
    ensures t !in Depths(all) ==> OfTier(all, t) == []
  {
    if all != [] {
      var n := |all| - 1;
      NumberedSnoc(all, n);
      assert all[..n + 1] == all;
      AbsentTierEmpty(all[..n], t);
    }
  }

  // ----- Which statements a plan contains -----

  lemma AddToBoth(a: multiset<Statement>, b: multiset<Statement>, c: multiset<Statement>, d: multiset<Statement>,
                  e: multiset<Statement>)
    requires a + b == c + d
    ensures a + e + b == c + e + d
  {
    assert a + e + b == (a + b) + e && c + e + d == (c + d) + e;
  }

  lemma CancelBoth(a: multiset<Statement>, b: multiset<Statement>, c: multiset<Statement>, d: multiset<Statement>)
    requires a + b == c + (b + d)
    ensures a == c + d
  {
    forall x
      ensures a[x] == (c + d)[x]
    {
      assert (a + b)[x] == (c + (b + d))[x];
    }
  }

  lemma {:induction false} BagOfUpdate(lanes: Phase, c: nat, lane: seq<Statement>)
    requires c < |lanes|
    ensures Bag(lanes[c := lane]) + multiset(lanes[c]) == Bag(lanes) + multiset(lane)
  {
    var n := |lanes| - 1;
    if c == n {
      assert lanes[c := lane][..n] == lanes[..n];
    } else {
      BagOfUpdate(lanes[..n], c, lane);
      var changed := lanes[c := lane];
      assert changed[..n] == lanes[..n][c := lane] && changed[n] == lanes[n] && lanes[..n][c] == lanes[c];
      assert Bag(changed) == Bag(changed[..n]) + multiset(changed[n]);
      AddToBoth(Bag(changed[..n]), multiset(lanes[c]), Bag(lanes[..n]), multiset(lane), multiset(lanes[n]));
    }
  }

  lemma {:induction false} BagOfEmpty(lanes: Phase)
    requires forall c | 0 <= c < |lanes| :: lanes[c] == []
    ensures Bag(lanes) == multiset{}
  {
    if lanes != [] {
      BagOfEmpty(lanes[..|lanes| - 1]);
    }
  }

  lemma SerialBag(statements: seq<Statement>, numConns: nat)
    requires numConns > 0
    ensures Bag(Serial(statements, numConns)) == multiset(statements)
  {
    var empty: Phase := seq(numConns, c => []);
    BagOfEmpty(empty);
    BagOfUpdate(empty, 0, statements);
    var serial := empty[0 := statements];
    assert Serial(statements, numConns) == serial;
    assert Bag(serial) + multiset(empty[0]) == multiset(statements);
  }

  lemma BagOfAppend(lanes: Phase, c: nat, s: Statement)
    requires c < |lanes|
    ensures Bag(lanes[c := lanes[c] + [s]]) == Bag(lanes) + multiset{s}
  {
    BagOfUpdate(lanes, c, lanes[c] + [s]);
    assert multiset(lanes[c] + [s]) == multiset(lanes[c]) + multiset{s};
    CancelBoth(Bag(lanes[c := lanes[c] + [s]]), multiset(lanes[c]), Bag(lanes), multiset{s});
  }

  ghost function LanesFor(statements: seq<Statement>, pins: map<nat, nat>, numConns: nat): Phase {
    seq(numConns, c requires 0 <= c => OnConn(statements, pins, c))
  }

  lemma LanesForAppend(done: seq<Statement>, s: Statement, pins: map<nat, nat>, numConns: nat)
    requires Cohort(s) in pins && pins[Cohort(s)] < numConns
    ensures var before := LanesFor(done, pins, numConns);
      LanesFor(done + [s], pins, numConns) == before[pins[Cohort(s)] := before[pins[Cohort(s)]] + [s]]
  {
    assert (done + [s])[..|done|] == done;
    var own := pins[Cohort(s)];
    var before, after := LanesFor(done, pins, numConns), LanesFor(done + [s], pins, numConns);
    forall c | 0 <= c < numConns
      ensures after[c] == if c == own then before[own] + [s] else before[c]
    {
    }
  }

  lemma LanesBagAppend(done: seq<Statement>, s: Statement, pins: map<nat, nat>, numConns: nat)
    requires Cohort(s) in pins && pins[Cohort(s)] < numConns
    requires Bag(LanesFor(done, pins, numConns)) == multiset(done)
    ensures Bag(LanesFor(done + [s], pins, numConns)) == multiset(done + [s])
  {
    LanesForAppend(done, s, pins, numConns);
    BagOfAppend(LanesFor(done, pins, numConns), pins[Cohort(s)], s);
  }

  /** Splitting a tier over connections neither loses nor repeats a statement. */
  lemma {:induction false} LanesBag(statements: seq<Statement>, pins: map<nat, nat>, numConns: nat)
    requires forall i | 0 <= i < |statements| :: Cohort(statements[i]) in pins && pins[Cohort(statements[i])] < numConns
    ensures Bag(LanesFor(statements, pins, numConns)) == multiset(statements)
  {
    if statements == [] {
      NoLanes(pins, numConns);
    } else {
      var done, s := statements[..|statements| - 1], statements[|statements| - 1];
      assert statements == done + [s];
      LanesBag(done, pins, numConns);
      LanesBagAppend(done, s, pins, numConns);
    }
  }

  lemma NoLanes(pins: map<nat, nat>, numConns: nat)
    ensures Bag(LanesFor([], pins, numConns)) == multiset{}
  {
    BagOfEmpty(LanesFor([], pins, numConns));
  }

  lemma ParallelBag(statements: seq<Statement>, numConns: nat, phase: Phase)
    requires IsParallelPhase(statements, numConns, phase)
    ensures |phase| == numConns && Bag(phase) == multiset(statements)
  {
    var split, pins :| Scheduled(statements, numConns, split, pins) && phase == LanesOf(split, numConns);
    forall i | 0 <= i < |statements|
      ensures Cohort(statements[i]) in pins
    {
      assert Cohort(statements[i]) in CohortsIn(statements);
    }
    assert phase == LanesFor(statements, pins, numConns);
    LanesBag(statements, pins, numConns);
  }

  /** The statements of the tiers below n. */
  ghost function Tiers(all: seq<Statement>, n: nat): multiset<Statement> {
    if n == 0 then multiset{} else if n == 1 then multiset{} else Tiers(all, n - 1) + multiset(OfTier(all, n - 1))
  }

  ghost predicate HoldsTier(all: seq<Statement>, phase: Phase, t: nat) {
    Bag(phase) == multiset(OfTier(all, t))
  }

  /** The phases of a plan hold the statements of their tier. */
  ghost predicate PhaseBags(all: seq<Statement>, plan: seq<Phase>) {
    && |plan| == |Depths(all)| + 2
    && Bag(plan[0]) == multiset(LeadingZero(all))
    && (forall t {:trigger HoldsTier(all, plan[t], t)} | 1 <= t <= |Depths(all)| :: HoldsTier(all, plan[t], t))
    && Bag(plan[|Depths(all)| + 1]) == multiset(TrailingZero(all))
  }

  lemma PlanHasPhaseBags(all: seq<Statement>, numConns: nat, plan: seq<Phase>)
    requires numConns > 0 && IsPlan(all, numConns, plan)
    ensures PhaseBags(all, plan)
  {
    SerialBag(LeadingZero(all), numConns);
    SerialBag(TrailingZero(all), numConns);
    forall t | 1 <= t <= |Depths(all)|
      ensures HoldsTier(all, plan[t], t)
    {
      ParallelBag(OfTier(all, t), numConns, plan[t]);
    }
  }

  lemma {:induction false} PlanPrefix(all: seq<Statement>, plan: seq<Phase>, leading: multiset<Statement>, t: nat)
    requires 1 <= t <= |plan| && Bag(plan[0]) == leading
    requires forall u {:trigger HoldsTier(all, plan[u], u)} | 1 <= u < t :: HoldsTier(all, plan[u], u)
    ensures TotalTo(plan, t) == leading + Tiers(all, t)
  {
    if t == 1 {
      assert TotalTo(plan, 0) == multiset{} && Tiers(all, 1) == multiset{};
    } else {
      PlanPrefix(all, plan, leading, t - 1);
      assert HoldsTier(all, plan[t - 1], t - 1);
    }
  }

  lemma PlanTotal(all: seq<Statement>, plan: seq<Phase>)
    requires PhaseBags(all, plan)
    ensures Total(plan) == multiset(LeadingZero(all)) + Tiers(all, |Depths(all)| + 1) + multiset(TrailingZero(all))
  {
    PlanPrefix(all, plan, multiset(LeadingZero(all)), |Depths(all)| + 1);
  }

  lemma {:induction false} TierCount(all: seq<Statement>, t: nat, x: Statement)
    ensures multiset(OfTier(all, t))[x] == if Depth(x) == t then multiset(all)[x] else 0
  {
    if all != [] {
      var n := |all| - 1;
      TierCount(all[..n], t, x);
      assert all == all[..n] + [all[n]];
    }
  }

  lemma {:induction false} ZeroCount(all: seq<Statement>, x: Statement)
    ensures multiset(LeadingZero(all))[x] + multiset(TrailingZero(all))[x] ==
            if Depth(x) == 0 then multiset(all)[x] else 0
  {
    if all != [] {
      var n := |all| - 1;
      ZeroCount(all[..n], x);
      assert all == all[..n] + [all[n]];
      var leading, trailing := LeadingZero(all[..n]), TrailingZero(all[..n]);
      if Depth(all[n]) != 0 {
        assert LeadingZero(all) == leading && TrailingZero(all) == trailing;
      } else if HasNumbered(all[..n]) {
        assert LeadingZero(all) == leading && TrailingZero(all) == trailing + [all[n]];
      } else {
        assert LeadingZero(all) == leading + [all[n]] && TrailingZero(all) == trailing;
      }
    }
  }

  lemma {:induction false} TiersCount(all: seq<Statement>, n: nat, x: Statement)
    ensures Tiers(all, n)[x] == if 1 <= Depth(x) < n then multiset(all)[x] else 0
  {
    if n > 1 {
      TiersCount(all, n - 1, x);
      TierCount(all, n - 1, x);
    }
  }

  /** How often a plan executes a statement: as often as it is listed, unless its tier is beyond the tier count. */
  lemma PlanCount(all: seq<Statement>, numConns: nat, plan: seq<Phase>, x: Statement)
    requires numConns > 0 && IsPlan(all, numConns, plan)
    ensures Total(plan)[x] == if Depth(x) <= |Depths(all)| then multiset(all)[x] else 0
  {
    PlanHasPhaseBags(all, numConns, plan);
    PlanTotal(all, plan);
    TiersCount(all, |Depths(all)| + 1, x);
    ZeroCount(all, x);
  }

  /** No tier number is skipped. */
  ghost predicate GapFree(all: seq<Statement>) {
    forall i, t | 0 <= i < |all| && 1 <= t < Depth(all[i]) :: t in Depths(all)
  }

  lemma {:induction false} DepthsBelow(all: seq<Statement>, bound: nat)
    requires forall i, t | 0 <= i < |all| && 1 <= t < Depth(all[i]) :: t in Depths(all)
    requires bound in Depths(all)
    ensures bound <= |Depths(all)|
  {
    var low := Below(bound + 1) - {0};
    var i :| 0 <= i < |all| && Depth(all[i]) == bound;
    forall t | t in low
      ensures t in Depths(all)
    {
    }
    SubsetSize(low, Depths(all));
  }

  /**
   * The tier loop executes every statement exactly when the tier numbers have no gap. With a gap, the
   * statements of the highest tiers are silently left out.
   */
  lemma EveryStatementPlannedIffGapFree(all: seq<Statement>, numConns: nat, plan: seq<Phase>)
    requires numConns > 0 && IsPlan(all, numConns, plan)
    ensures Total(plan) == multiset(all) <==> GapFree(all)
  {
    if GapFree(all) {
      forall x
        ensures Total(plan)[x] == multiset(all)[x]
      {
        PlanCount(all, numConns, plan, x);
        if x in multiset(all) && Depth(x) > 0 {
          var i :| 0 <= i < |all| && all[i] == x;
          assert Depth(all[i]) in Depths(all);
          DepthsBelow(all, Depth(x));
        }
      }
    } else {
      var i, t :| 0 <= i < |all| && 1 <= t < Depth(all[i]) && t !in Depths(all);
      var j := DeepestAboveCount(all, t, i);
      PlanCount(all, numConns, plan, all[j]);
      assert all[j] in multiset(all);
    }
  }

  /** With tier t missing below a used tier, some used tier is beyond the tier count. */
  lemma DeepestAboveCount(all: seq<Statement>, t: nat, i: nat) returns (j: nat)
    requires i < |all| && 1 <= t < Depth(all[i]) && t !in Depths(all)
    ensures j < |all| && Depth(all[j]) > |Depths(all)|
  {
    var k := |Depths(all)|;
    if forall d | d in Depths(all) :: d <= k {
      var room := Below(k + 1) - {0};
      assert Depth(all[i]) in Depths(all);
      assert t in room - Depths(all);
      SubsetSize(Depths(all), room - {t});
      assert false;
    }
    var d :| d in Depths(all) && d > k;
    j :| 0 <= j < |all| && Depth(all[j]) == d;
  }

  /** Two tiers, numbered 1 and 3: the loop stops after 2 and the statement in tier 3 never runs. */
  lemma GapLosesStatement(numConns: nat, plan: seq<Phase>)
    requires numConns > 0
    requires IsPlan([Statement("t", "CREATE TABLE t", [1, 1]), Statement("v", "CREATE VIEW v", [3, 1])], numConns, plan)
    ensures Total(plan)[Statement("v", "CREATE VIEW v", [3, 1])] == 0
  {
    var all := [Statement("t", "CREATE TABLE t", [1, 1]), Statement("v", "CREATE VIEW v", [3, 1])];
    assert Depths(all) == {1, 3} by {
      assert Depth(all[0]) == 1 && Depth(all[1]) == 3;
    }
    PlanCount(all, numConns, plan, all[1]);
  }

  // ----- Runs -----

  /** Connections work through their queues side by side; a phase ends when all of them are idle. */
  datatype RunState = RunState(phase: nat, queues: Phase, running: seq<Option<Statement>>, finished: seq<Statement>)

  datatype Move = Start(c: nat) | Finish(c: nat) | NextPhase

  ghost function Init(plan: seq<Phase>): RunState
    requires plan != []
  {
    RunState(0, plan[0], seq(|plan[0]|, c => None), [])
  }

  ghost predicate Idle(s: RunState) {
    && (forall c | 0 <= c < |s.queues| :: s.queues[c] == [])
    && (forall c | 0 <= c < |s.running| :: s.running[c] == None)
  }

  ghost predicate Step(plan: seq<Phase>, s: RunState, m: Move, s': RunState) {
    match m
    case Start(c) =>
      && c < |s.queues| && c < |s.running| && s.queues[c] != [] && s.running[c] == None
      && s' == s.(queues := s.queues[c := s.queues[c][1..]], running := s.running[c := Some(s.queues[c][0])])
    case Finish(c) =>
      && c < |s.running| && s.running[c].Some?
      && s' == s.(running := s.running[c := None], finished := s.finished + [s.running[c].value])
    case NextPhase =>
      && Idle(s) && s.phase + 1 < |plan|
      && s' == RunState(s.phase + 1, plan[s.phase + 1], seq(|plan[s.phase + 1]|, c => None), s.finished)
  }

  /** Every interleaving: a sequence of states, each reached from the one before by some move. */
  ghost predicate IsRun(plan: seq<Phase>, run: seq<RunState>) {
    && plan != [] && run != [] && run[0] == Init(plan)
    && forall i, j | 0 <= i < j < |run| && j == i + 1 :: CanStep(plan, run[i], run[j])
  }

  ghost predicate CanStep(plan: seq<Phase>, s: RunState, s': RunState) {
    exists m :: Step(plan, s, m, s')
  }

  function LaneOf(o: Option<Statement>): seq<Statement> {
    if o.Some? then [o.value] else []
  }

  ghost function RunningLanes(running: seq<Option<Statement>>): Phase {
    seq(|running|, c requires 0 <= c < |running| => LaneOf(running[c]))
  }

  /** Statements of the current phase that are queued or running. */
  ghost function Pending(s: RunState): multiset<Statement> {
    Bag(RunningLanes(s.running)) + Bag(s.queues)
  }

  ghost predicate InLanes(phase: Phase, running: seq<Option<Statement>>, queues: Phase) {
    && |queues| == |running| == |phase|
    && (forall c | 0 <= c < |queues| :: FromLane(phase[c], queues[c]))
    && (forall c | 0 <= c < |running| :: FromLane(phase[c], LaneOf(running[c])))
  }

  ghost predicate FromLane(lane: seq<Statement>, queue: seq<Statement>) {
    forall i | 0 <= i < |queue| :: queue[i] in lane
  }

  /** Nothing is lost or repeated, and connections only hold statements of their lane. */
  ghost predicate Inv(plan: seq<Phase>, s: RunState) {
    && s.phase < |plan|
    && InLanes(plan[s.phase], s.running, s.queues)
    && multiset(s.finished) + Pending(s) == TotalTo(plan, s.phase + 1)
  }

  lemma RunningUpdate(running: seq<Option<Statement>>, c: nat, o: Option<Statement>)
    requires c < |running|
    ensures RunningLanes(running[c := o]) == RunningLanes(running)[c := LaneOf(o)]
  {
  }

  lemma IdleBags(running: seq<Option<Statement>>, queues: Phase)
    requires forall c | 0 <= c < |queues| :: queues[c] == []
    requires forall c | 0 <= c < |running| :: running[c] == None
    ensures Bag(queues) == multiset{} && Bag(RunningLanes(running)) == multiset{}
  {
    BagOfEmpty(queues);
    BagOfEmpty(RunningLanes(running));
  }

  lemma PhaseStarts(plan: seq<Phase>, p: nat, finished: seq<Statement>)
    requires p < |plan| && multiset(finished) == TotalTo(plan, p)
    ensures Inv(plan, RunState(p, plan[p], seq(|plan[p]|, c => None), finished))
  {
    BagOfEmpty(RunningLanes(seq(|plan[p]|, c => None)));
  }

  lemma MoveOne(lanes: Phase, lanes': Phase, c: nat, x: Statement, rest: seq<Statement>)
    requires c < |lanes| && lanes' == lanes[c := rest] && lanes[c] == [x] + rest
    ensures Bag(lanes) == Bag(lanes') + multiset{x}
  {
    BagOfUpdate(lanes, c, rest);
    assert multiset(lanes[c]) == multiset(rest) + multiset{x};
    CancelBoth(Bag(lanes), multiset(rest), Bag(lanes'), multiset{x});
  }

  lemma StartKeepsBags(running: seq<Option<Statement>>, queues: Phase, c: nat)
    requires c < |queues| == |running| && queues[c] != [] && running[c] == None
    ensures Bag(RunningLanes(running[c := Some(queues[c][0])])) + Bag(queues[c := queues[c][1..]]) ==
            Bag(RunningLanes(running)) + Bag(queues)
  {
    var x := queues[c][0];
    var running', queues' := running[c := Some(x)], queues[c := queues[c][1..]];
    RunningGains(running, c, x);
    MoveOne(queues, queues', c, x, queues[c][1..]);
    SwapOne(Bag(RunningLanes(running')), Bag(RunningLanes(running)), Bag(queues), Bag(queues'), x);
  }

  lemma RunningGains(running: seq<Option<Statement>>, c: nat, x: Statement)
    requires c < |running| && running[c] == None
    ensures Bag(RunningLanes(running[c := Some(x)])) == Bag(RunningLanes(running)) + multiset{x}
  {
    RunningUpdate(running, c, Some(x));
    BagOfAppend(RunningLanes(running), c, x);
    assert RunningLanes(running)[c] + [x] == LaneOf(Some(x));
  }

  lemma SwapOne(a: multiset<Statement>, b: multiset<Statement>, d: multiset<Statement>, e: multiset<Statement>,
                x: Statement)
    requires a == b + multiset{x} && d == e + multiset{x}
    ensures a + e == b + d
  {
  }

  lemma FinishKeepsBags(running: seq<Option<Statement>>, c: nat)
    requires c < |running| && running[c].Some?
    ensures Bag(RunningLanes(running)) == Bag(RunningLanes(running[c := None])) + multiset{running[c].value}
  {
    RunningUpdate(running, c, None);
    MoveOne(RunningLanes(running), RunningLanes(running[c := None]), c, running[c].value, []);
  }

  lemma StartKeepsLanes(phase: Phase, running: seq<Option<Statement>>, queues: Phase, c: nat)
    requires InLanes(phase, running, queues) && c < |phase| && queues[c] != []
    ensures InLanes(phase, running[c := Some(queues[c][0])], queues[c := queues[c][1..]])
  {
  }

  lemma StartKeepsInv(plan: seq<Phase>, s: RunState, c: nat, s': RunState)
    requires Inv(plan, s) && Step(plan, s, Start(c), s')
    ensures Inv(plan, s')
  {
    StartKeepsBags(s.running, s.queues, c);
    StartKeepsLanes(plan[s.phase], s.running, s.queues, c);
    assert Pending(s') == Pending(s);
  }

  lemma FinishKeepsInv(plan: seq<Phase>, s: RunState, c: nat, s': RunState)
    requires Inv(plan, s) && Step(plan, s, Finish(c), s')
    ensures Inv(plan, s')
  {
    FinishKeepsBags(s.running, c);
    MoveToFinished(multiset(s.finished), Bag(RunningLanes(s.running)), Bag(RunningLanes(s'.running)), Bag(s.queues),
                   s.running[c].value);
    assert multiset(s'.finished) == multiset(s.finished) + multiset{s.running[c].value};
    assert FromLane(plan[s.phase][c], LaneOf(None));
  }

  lemma MoveToFinished(f: multiset<Statement>, r: multiset<Statement>, r': multiset<Statement>, q: multiset<Statement>,
                       x: Statement)
    requires r == r' + multiset{x}
    ensures (f + multiset{x}) + (r' + q) == f + (r + q)
  {
  }

  lemma StepKeepsInv(plan: seq<Phase>, s: RunState, m: Move, s': RunState)
    requires Inv(plan, s) && Step(plan, s, m, s')
    ensures Inv(plan, s')
  {
    match m
    case Start(c) => StartKeepsInv(plan, s, c, s');
    case Finish(c) => FinishKeepsInv(plan, s, c, s');
    case NextPhase =>
      IdleBags(s.running, s.queues);
      PhaseStarts(plan, s.phase + 1, s.finished);
  }

  lemma {:induction false} RunKeepsInv(plan: seq<Phase>, run: seq<RunState>)
    requires IsRun(plan, run)
    ensures Inv(plan, run[|run| - 1])
  {
    var n := |run| - 1;
    if n == 0 {
      PhaseStarts(plan, 0, []);
    } else {
      RunKeepsInv(plan, run[..n]);
      assert run[..n][n - 1] == run[n - 1] && CanStep(plan, run[n - 1], run[n]);
      var m :| Step(plan, run[n - 1], m, run[n]);
      StepKeepsInv(plan, run[n - 1], m, run[n]);
    }
  }

  /** The run is over: the last phase is done. */
  ghost predicate Complete(plan: seq<Phase>, s: RunState) {
    s.phase + 1 == |plan| && Idle(s)
  }

  /** A run that is not over can always go on. */
  lemma NeverStuck(plan: seq<Phase>, s: RunState)
    requires Inv(plan, s) && !Complete(plan, s)
    ensures exists m, s' :: Step(plan, s, m, s')
  {
    if c :| 0 <= c < |s.running| && s.running[c].Some? {
      assert Step(plan, s, Finish(c), s.(running := s.running[c := None],
                                         finished := s.finished + [s.running[c].value]));
    } else if c :| 0 <= c < |s.queues| && s.queues[c] != [] {
      assert Step(plan, s, Start(c),
                  s.(queues := s.queues[c := s.queues[c][1..]], running := s.running[c := Some(s.queues[c][0])]));
    } else {
      assert Step(plan, s, NextPhase,
                  RunState(s.phase + 1, plan[s.phase + 1], seq(|plan[s.phase + 1]|, c => None), s.finished));
    }
  }

  ghost function Work(s: RunState): nat {
    2 * |Bag(s.queues)| + |Bag(RunningLanes(s.running))|
  }

  /** No run goes on for ever: a move either enters a later phase or leaves less work in this one. */
  lemma EveryMoveProgresses(plan: seq<Phase>, s: RunState, m: Move, s': RunState)
    requires Inv(plan, s) && Step(plan, s, m, s')
    ensures s.phase < s'.phase < |plan| || (s.phase == s'.phase && Work(s') < Work(s))
  {
    match m
    case Start(c) =>
      var x := s.queues[c][0];
      MoveOne(s.queues, s'.queues, c, x, s.queues[c][1..]);
      RunningGains(s.running, c, x);
    case Finish(c) =>
      FinishKeepsBags(s.running, c);
    case NextPhase =>
  }

  /** A completed run executed every statement exactly as often as listed, if and only if no tier was skipped. */
  lemma CompletedRunExecutesAllIffGapFree(all: seq<Statement>, numConns: nat, plan: seq<Phase>, run: seq<RunState>)
    requires numConns > 0 && IsPlan(all, numConns, plan) && IsRun(plan, run)
    requires Complete(plan, run[|run| - 1])
    ensures multiset(run[|run| - 1].finished) == multiset(all) <==> GapFree(all)
  {
    var s := run[|run| - 1];
    RunKeepsInv(plan, run);
    IdleBags(s.running, s.queues);
    EveryStatementPlannedIffGapFree(all, numConns, plan);
  }

  // ----- The order on one connection -----

  /** The statements that connection c has finished in the phase of state n of a run, in the order it did. */
  ghost function DoneOn(run: seq<RunState>, c: nat, n: nat): seq<Statement>
    requires n < |run|
  {
    if n == 0 || run[n].phase != run[n - 1].phase then []
    else
      DoneOn(run, c, n - 1) +
      if c < |run[n].running| && c < |run[n - 1].running| && run[n - 1].running[c].Some? && run[n].running[c] == None
      then [run[n - 1].running[c].value] else []
  }

  /** What a connection has finished, is running and has in its queue, one after the other, is its lane. */
  ghost predicate InOrderOn(plan: seq<Phase>, s: RunState, done: seq<Statement>, c: nat) {
    && s.phase < |plan| && |s.queues| == |s.running| == |plan[s.phase]|
    && (c < |s.running| ==> done + LaneOf(s.running[c]) + s.queues[c] == plan[s.phase][c])
  }

  lemma StepKeepsOrder(plan: seq<Phase>, s: RunState, m: Move, s': RunState, done: seq<Statement>, c: nat)
    requires InOrderOn(plan, s, done, c) && Step(plan, s, m, s')
    ensures !m.NextPhase? ==>
              InOrderOn(plan, s', done + if m == Finish(c) then LaneOf(s.running[c]) else [], c)
    ensures m.NextPhase? ==> InOrderOn(plan, s', [], c)
  {
    if m == Start(c) {
      assert s.queues[c] == [s.queues[c][0]] + s.queues[c][1..];
    }
  }

  /** Whatever the other connections do, a connection runs the statements of its lane one by one, in file order. */
  lemma {:induction false} LaneRunsInOrder(plan: seq<Phase>, run: seq<RunState>, c: nat, n: nat)
    requires IsRun(plan, run) && n < |run|
    ensures InOrderOn(plan, run[n], DoneOn(run, c, n), c)
  {
    if n > 0 {
      LaneRunsInOrder(plan, run, c, n - 1);
      assert CanStep(plan, run[n - 1], run[n]);
      var m :| Step(plan, run[n - 1], m, run[n]);
      StepKeepsOrder(plan, run[n - 1], m, run[n], DoneOn(run, c, n - 1), c);
    }
  }

  // ----- Dependencies -----

  /** Statements of sorted objects carry the tier the sort assigned. */
  ghost predicate TieredBy(all: seq<Statement>, owner: Statement -> Option<UniqueID>, tiers: map<UniqueID, Tier>) {
    forall i | 0 <= i < |all| && owner(all[i]).Some? && owner(all[i]).value in tiers ::
      var t := tiers[owner(all[i]).value];
      all[i].tier == [t.depth, t.cohort]
  }

  lemma DeeperThanDependency(ids: set<UniqueID>, dependencies: DependencyMap, tiers: map<UniqueID, Tier>, a: UniqueID,
                             d: UniqueID)
    requires DepthsAreLongestChains(ids, dependencies, tiers) && a in ids && d in ids
    requires d in Deps(dependencies, a)
    ensures 1 <= tiers[d].depth < tiers[a].depth
  {
    assert DepthIs(ids, dependencies, d, tiers[d].depth) && DepthIs(ids, dependencies, a, tiers[a].depth);
    var p :| IsChain(ids, dependencies, p) && p[0] == d && |p| == tiers[d].depth;
    assert IsChain(ids, dependencies, [a] + p);
  }

  lemma {:induction false} InLaneInBag(lanes: Phase, c: nat, x: Statement)
    requires c < |lanes| && x in lanes[c]
    ensures Bag(lanes)[x] > 0
  {
    var n := |lanes| - 1;
    if c < n {
      assert lanes[..n][c] == lanes[c];
      InLaneInBag(lanes[..n], c, x);
    }
  }

  lemma {:induction false} BagInSomeLane(lanes: Phase, x: Statement) returns (c: nat)
    requires Bag(lanes)[x] > 0
    ensures c < |lanes| && x in lanes[c]
  {
    var n := |lanes| - 1;
    if x in lanes[n] {
      c := n;
    } else {
      c := BagInSomeLane(lanes[..n], x);
      assert lanes[..n][c] == lanes[c];
    }
  }

  lemma TierHolds(all: seq<Statement>, phase: Phase, t: nat, x: Statement)
    requires HoldsTier(all, phase, t) && Bag(phase)[x] > 0
    ensures x in all && Depth(x) == t
  {
    TierCount(all, t, x);
  }

  lemma ZeroHolds(all: seq<Statement>, bag: multiset<Statement>, x: Statement)
    requires bag == multiset(LeadingZero(all)) || bag == multiset(TrailingZero(all))
    requires bag[x] > 0
    ensures x in all && Depth(x) == 0
  {
    ZeroCount(all, x);
  }

  /** A statement with a tier is executed in the phase of that tier. */
  lemma PhaseIsDepth(all: seq<Statement>, plan: seq<Phase>, p: nat, c: nat, x: Statement)
    requires PhaseBags(all, plan) && p < |plan| && c < |plan[p]| && x in plan[p][c]
    ensures x in all
    ensures Depth(x) == if 1 <= p <= |Depths(all)| then p else 0
  {
    InLaneInBag(plan[p], c, x);
    PhaseBagIs(all, plan, p);
    BagHolds(all, plan[p], p, |Depths(all)|, x);
  }

  lemma PhaseBagIs(all: seq<Statement>, plan: seq<Phase>, p: nat)
    requires PhaseBags(all, plan) && p < |plan|
    ensures 1 <= p <= |Depths(all)| ==> HoldsTier(all, plan[p], p)
    ensures !(1 <= p <= |Depths(all)|) ==>
            Bag(plan[p]) == multiset(LeadingZero(all)) || Bag(plan[p]) == multiset(TrailingZero(all))
  {
    var count := |Depths(all)|;
    if 1 <= p <= count {
      assert HoldsTier(all, plan[p], p);
    } else {
      assert p == 0 || p == count + 1;
    }
  }

  lemma BagHolds(all: seq<Statement>, phase: Phase, p: nat, count: nat, x: Statement)
    requires 1 <= p <= count ==> HoldsTier(all, phase, p)
    requires !(1 <= p <= count) ==>
               Bag(phase) == multiset(LeadingZero(all)) || Bag(phase) == multiset(TrailingZero(all))
    requires Bag(phase)[x] > 0
    ensures x in all && Depth(x) == if 1 <= p <= count then p else 0
  {
    if 1 <= p <= count {
      TierHolds(all, phase, p, x);
    } else {
      ZeroHolds(all, Bag(phase), x);
    }
  }

  /** What is left of a phase holds no statement of another tier. */
  lemma PendingHasDepth(all: seq<Statement>, plan: seq<Phase>, s: RunState, y: Statement)
    requires PhaseBags(all, plan) && s.phase < |plan| && InLanes(plan[s.phase], s.running, s.queues)
    requires 1 <= Depth(y) && Depth(y) != s.phase
    ensures Pending(s)[y] == 0
  {
    var lanes := RunningLanes(s.running);
    if Bag(lanes)[y] > 0 {
      var c := BagInSomeLane(lanes, y);
      assert FromLane(plan[s.phase][c], LaneOf(s.running[c]));
      PhaseIsDepth(all, plan, s.phase, c, y);
    } else if Bag(s.queues)[y] > 0 {
      var c := BagInSomeLane(s.queues, y);
      assert FromLane(plan[s.phase][c], s.queues[c]);
      PhaseIsDepth(all, plan, s.phase, c, y);
    }
  }

  lemma TotalToCount(all: seq<Statement>, plan: seq<Phase>, t: nat, y: Statement)
    requires PhaseBags(all, plan) && 1 <= Depth(y) < t <= |Depths(all)| + 1
    ensures TotalTo(plan, t)[y] == multiset(all)[y]
  {
    PlanPrefix(all, plan, multiset(LeadingZero(all)), t);
    TiersCount(all, t, y);
    ZeroCount(all, y);
  }

  lemma FinishedOfTotal(plan: seq<Phase>, s: RunState, y: Statement)
    requires Inv(plan, s) && Pending(s)[y] == 0
    ensures multiset(s.finished)[y] == TotalTo(plan, s.phase + 1)[y]
  {
  }

  /** A running statement comes from the lane of its connection in the current phase. */
  lemma RunningPlace(all: seq<Statement>, numConns: nat, plan: seq<Phase>, run: seq<RunState>, c: nat)
    requires numConns > 0 && IsPlan(all, numConns, plan) && IsRun(plan, run)
    requires var s := run[|run| - 1]; c < |s.running| && s.running[c].Some?
    ensures var s := run[|run| - 1];
      var x := s.running[c].value;
      && Inv(plan, s) && PhaseBags(all, plan)
      && x in plan[s.phase][c] && x in all
      && Depth(x) == if 1 <= s.phase <= |Depths(all)| then s.phase else 0
  {
    var s := run[|run| - 1];
    RunKeepsInv(plan, run);
    PlanHasPhaseBags(all, numConns, plan);
    assert FromLane(plan[s.phase][c], LaneOf(s.running[c])) && LaneOf(s.running[c])[0] == s.running[c].value;
    PhaseIsDepth(all, plan, s.phase, c, s.running[c].value);
  }

  lemma OwnedTier(all: seq<Statement>, owner: Statement -> Option<UniqueID>, tiers: map<UniqueID, Tier>, x: Statement)
    requires TieredBy(all, owner, tiers) && x in all && owner(x).Some? && owner(x).value in tiers
    ensures Depth(x) == tiers[owner(x).value].depth && Cohort(x) == tiers[owner(x).value].cohort
  {
  }

  /** While a statement runs, every statement of a lower tier has finished. */
  lemma LowerTiersFinished(all: seq<Statement>, numConns: nat, plan: seq<Phase>, run: seq<RunState>, c: nat,
                           y: Statement)
    requires numConns > 0 && IsPlan(all, numConns, plan) && IsRun(plan, run)
    requires var s := run[|run| - 1]; c < |s.running| && s.running[c].Some? && 1 <= Depth(y) < Depth(s.running[c].value)
    ensures multiset(run[|run| - 1].finished)[y] == multiset(all)[y]
  {
    var s := run[|run| - 1];
    RunningPlace(all, numConns, plan, run, c);
    PendingHasDepth(all, plan, s, y);
    TotalToCount(all, plan, s.phase + 1, y);
    FinishedOfTotal(plan, s, y);
  }

  /**
   * Whenever a statement of a sorted object is running, in any interleaving, every statement of every
   * object it depends on has finished.
   */
  lemma DependenciesFinishFirst(ids: set<UniqueID>, dependencies: DependencyMap, tiers: map<UniqueID, Tier>,
                                all: seq<Statement>, owner: Statement -> Option<UniqueID>,
                                numConns: nat, plan: seq<Phase>, run: seq<RunState>, c: nat, y: Statement)
    requires Closed(ids, dependencies) && DepthsAreLongestChains(ids, dependencies, tiers)
    requires TieredBy(all, owner, tiers)
    requires numConns > 0 && IsPlan(all, numConns, plan) && IsRun(plan, run)
    requires var s := run[|run| - 1];
      && c < |s.running| && s.running[c].Some?
      && owner(s.running[c].value).Some? && owner(s.running[c].value).value in ids
      && y in all && owner(y).Some?
      && owner(y).value in Deps(dependencies, owner(s.running[c].value).value)
    ensures multiset(run[|run| - 1].finished)[y] == multiset(all)[y]
  {
    var s := run[|run| - 1];
    var x := s.running[c].value;
    assert x in all by {
      RunningPlace(all, numConns, plan, run, c);
    }
    OwnedTier(all, owner, tiers, x);
    OwnedTier(all, owner, tiers, y);
    DeeperThanDependency(ids, dependencies, tiers, owner(x).value, owner(y).value);
    LowerTiersFinished(all, numConns, plan, run, c, y);
  }

  lemma {:induction false} OnConnPinned(statements: seq<Statement>, pins: map<nat, nat>, c: nat, x: Statement)
    requires x in OnConn(statements, pins, c)
    ensures Cohort(x) in pins && pins[Cohort(x)] == c
  {
    var n := |statements| - 1;
    if x in OnConn(statements[..n], pins, c) {
      OnConnPinned(statements[..n], pins, c, x);
    }
  }

  /** In any interleaving, two connections never run statements of one dependency component at the same time. */
  lemma ConcurrentStatementsUnrelated(ids: set<UniqueID>, dependencies: DependencyMap, tiers: map<UniqueID, Tier>,
                                      tierCount: nat,
                                      all: seq<Statement>, owner: Statement -> Option<UniqueID>,
                                      numConns: nat, plan: seq<Phase>, run: seq<RunState>, c1: nat, c2: nat)
    requires CohortsAreComponents(ids, dependencies, tiers) && DepthsTo(tiers, tierCount)
    requires TieredBy(all, owner, tiers)
    requires numConns > 0 && IsPlan(all, numConns, plan) && IsRun(plan, run)
    requires var s := run[|run| - 1];
      && c1 < |s.running| && c2 < |s.running| && c1 != c2
      && s.running[c1].Some? && owner(s.running[c1].value).Some? && owner(s.running[c1].value).value in ids
      && s.running[c2].Some? && owner(s.running[c2].value).Some? && owner(s.running[c2].value).value in ids
    ensures var s := run[|run| - 1];
      !Connected(ids, dependencies, owner(s.running[c1].value).value, owner(s.running[c2].value).value)
  {
    var s := run[|run| - 1];
    var x, y := s.running[c1].value, s.running[c2].value;
    RunningPlace(all, numConns, plan, run, c1);
    RunningPlace(all, numConns, plan, run, c2);
    OwnedTier(all, owner, tiers, x);
    OwnedTier(all, owner, tiers, y);
    TierPhaseSeparates(all, numConns, plan, s.phase, c1, c2, x, y);
  }

  lemma TierPhaseSeparates(all: seq<Statement>, numConns: nat, plan: seq<Phase>, p: nat, c1: nat, c2: nat, x: Statement,
                           y: Statement)
    requires numConns > 0 && IsPlan(all, numConns, plan) && 1 <= p <= |Depths(all)|
    requires c1 < |plan[p]| && c2 < |plan[p]| && c1 != c2 && x in plan[p][c1] && y in plan[p][c2]
    ensures Cohort(x) != Cohort(y)
  {
    LanesSeparateCohorts(OfTier(all, p), numConns, plan[p], c1, c2, x, y);
  }

  lemma LanesSeparateCohorts(statements: seq<Statement>, numConns: nat, phase: Phase, c1: nat, c2: nat, x: Statement,
                             y: Statement)
    requires IsParallelPhase(statements, numConns, phase)
    requires c1 < |phase| && c2 < |phase| && c1 != c2 && x in phase[c1] && y in phase[c2]
    ensures Cohort(x) != Cohort(y)
  {
    var split, pins :| Scheduled(statements, numConns, split, pins) && phase == LanesOf(split, numConns);
    OnConnPinned(statements, pins, c1, x);
    OnConnPinned(statements, pins, c2, y);
  }
}

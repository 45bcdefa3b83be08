/**
 * From the sorted objects of a backup to the tiers of its pre-data statements: constraints are sorted and get a tier,
 * but their statements are post-data, so the tiers in use can have a gap even when nothing is filtered.
 */
module TierGaps {
  import opened Collections
  import opened DependencyGraph
  import opened Cohorts
  import opened DependencySort
  import opened StatementSchedule
  import opened PredataRestore

  const PG_CLASS_OID := 1259
  const PG_CONSTRAINT_OID := 2606

  ghost predicate HasStatement(all: seq<Statement>, owner: Statement -> Option<UniqueID>, id: UniqueID) {
    exists i :: 0 <= i < |all| && owner(all[i]) == Some(id)
  }

  /** The sorted objects that have a pre-data statement. */
  ghost function Printed(tiers: map<UniqueID, Tier>, all: seq<Statement>,
                         owner: Statement -> Option<UniqueID>): set<UniqueID>
  {
    set id | id in tiers && HasStatement(all, owner, id)
  }

  /** Statements carry the tiers of their objects, and only statements of sorted objects have one. */
  ghost predicate TiersPrinted(tiers: map<UniqueID, Tier>, tierCount: nat, all: seq<Statement>,
                               owner: Statement -> Option<UniqueID>)
  {
    && DepthsTo(tiers, tierCount) && TieredBy(all, owner, tiers)
    && forall i | 0 <= i < |all| && Depth(all[i]) > 0 :: owner(all[i]).Some? && owner(all[i]).value in tiers
  }

  /** Every depth below that of one of the objects is the depth of one of them. */
  ghost predicate NoDepthSkipped(objects: set<UniqueID>, tiers: map<UniqueID, Tier>)
    requires objects <= tiers.Keys
  {
    forall id, t | id in objects && 1 <= t < tiers[id].depth :: DepthInUse(objects, tiers, t)
  }

  lemma PrintedDepths(tiers: map<UniqueID, Tier>, tierCount: nat, all: seq<Statement>,
                      owner: Statement -> Option<UniqueID>, t: nat)
    requires TiersPrinted(tiers, tierCount, all, owner)
    ensures t in Depths(all) <==> DepthInUse(Printed(tiers, all, owner), tiers, t)
  {
    var printed := Printed(tiers, all, owner);
    if t in Depths(all) {
      var i :| 0 <= i < |all| && Depth(all[i]) == t;
      OwnedTier(all, owner, tiers, all[i]);
      assert owner(all[i]).value in printed;
    }
    if DepthInUse(printed, tiers, t) {
      var id :| id in printed && id in tiers && tiers[id].depth == t;
      var i :| 0 <= i < |all| && owner(all[i]) == Some(id);
      OwnedTier(all, owner, tiers, all[i]);
    }
  }

  /** No tier is skipped if and only if the objects with a pre-data statement skip no depth. */
  lemma GapFreeIffPrinted(tiers: map<UniqueID, Tier>, tierCount: nat, all: seq<Statement>,
                          owner: Statement -> Option<UniqueID>)
    requires TiersPrinted(tiers, tierCount, all, owner)
    ensures GapFree(all) <==> NoDepthSkipped(Printed(tiers, all, owner), tiers)
  {
    var printed := Printed(tiers, all, owner);
    if GapFree(all) {
      forall id, t | id in printed && 1 <= t < tiers[id].depth
        ensures DepthInUse(printed, tiers, t)
      {
        var i :| 0 <= i < |all| && owner(all[i]) == Some(id);
        OwnedTier(all, owner, tiers, all[i]);
        assert t in Depths(all);
        PrintedDepths(tiers, tierCount, all, owner, t);
      }
    }
    if NoDepthSkipped(printed, tiers) {
      forall i, t | 0 <= i < |all| && 1 <= t < Depth(all[i])
        ensures t in Depths(all)
      {
        OwnedTier(all, owner, tiers, all[i]);
        assert owner(all[i]).value in printed;
        PrintedDepths(tiers, tierCount, all, owner, t);
      }
    }
  }

  /** An object above tier 1 has a dependency one tier below. */
  lemma DependencyBelow(ids: set<UniqueID>, dependencies: DependencyMap, tiers: map<UniqueID, Tier>, id: UniqueID)
    returns (d: UniqueID)
    requires DepthsAreLongestChains(ids, dependencies, tiers) && id in ids && tiers[id].depth > 1
    ensures d in ids && d in Deps(dependencies, id) && tiers[d].depth == tiers[id].depth - 1
  {
    assert DepthIs(ids, dependencies, id, tiers[id].depth);
    var p :| IsChain(ids, dependencies, p) && p[0] == id && |p| == tiers[id].depth;
    d := p[1];
    assert IsChain(ids, dependencies, p[1..]);
    assert DepthIs(ids, dependencies, d, tiers[d].depth);
    DeeperThanDependency(ids, dependencies, tiers, id, d);
  }

  /** If no object depends on one outside, the objects skip no depth. */
  lemma {:induction false} ClosedSkipsNone(ids: set<UniqueID>, dependencies: DependencyMap,
                                           tiers: map<UniqueID, Tier>, objects: set<UniqueID>, id: UniqueID, t: nat)
    requires DepthsAreLongestChains(ids, dependencies, tiers) && objects <= ids
    requires forall x | x in objects :: Deps(dependencies, x) <= objects
    requires id in objects && 1 <= t <= tiers[id].depth
    ensures DepthInUse(objects, tiers, t)
    decreases tiers[id].depth
  {
    if t < tiers[id].depth {
      var d := DependencyBelow(ids, dependencies, tiers, id);
      ClosedSkipsNone(ids, dependencies, tiers, objects, d, t);
    }
  }

  /** A restore in which no printed object depends on an unprinted one runs everything. */
  lemma ClosedRestoreIsGapFree(ids: set<UniqueID>, dependencies: DependencyMap, tiers: map<UniqueID, Tier>,
                               tierCount: nat, all: seq<Statement>, owner: Statement -> Option<UniqueID>)
    requires DepthsAreLongestChains(ids, dependencies, tiers) && TiersPrinted(tiers, tierCount, all, owner)
    requires forall x | x in Printed(tiers, all, owner) ::
               Deps(dependencies, x) <= Printed(tiers, all, owner)
    ensures GapFree(all)
  {
    var printed := Printed(tiers, all, owner);
    forall id, t | id in printed && 1 <= t < tiers[id].depth
      ensures DepthInUse(printed, tiers, t)
    {
      ClosedSkipsNone(ids, dependencies, tiers, printed, id, t);
    }
    GapFreeIffPrinted(tiers, tierCount, all, owner);
  }

  // ----- Nothing is filtered -----

  /** The sorted objects whose statements are pre-data: all but the constraints. */
  ghost function Predata(tiers: map<UniqueID, Tier>): set<UniqueID> {
    set id | id in tiers && id.classID != PG_CONSTRAINT_OID
  }

  /** Tier t is used by constraints only, below an object that is not one. */
  ghost predicate ConstraintsOnly(tiers: map<UniqueID, Tier>, t: nat) {
    && DepthInUse(tiers.Keys, tiers, t)
    && !DepthInUse(Predata(tiers), tiers, t)
    && exists id :: id in Predata(tiers) && tiers[id].depth > t
  }

  /**
   * A restore of everything runs every statement if and only if no tier below another object's holds only
   * constraints.
   */
  lemma UnfilteredGapFreeIff(tiers: map<UniqueID, Tier>, tierCount: nat, all: seq<Statement>,
                             owner: Statement -> Option<UniqueID>)
    requires TiersPrinted(tiers, tierCount, all, owner)
    requires Printed(tiers, all, owner) == Predata(tiers)
    ensures GapFree(all) <==> forall t :: !ConstraintsOnly(tiers, t)
  {
    GapFreeIffPrinted(tiers, tierCount, all, owner);
    var objects := Predata(tiers);
    if !NoDepthSkipped(objects, tiers) {
      var id, t :| id in objects && 1 <= t < tiers[id].depth && !DepthInUse(objects, tiers, t);
      assert DepthInUse(tiers.Keys, tiers, t);
      assert ConstraintsOnly(tiers, t);
    }
  }

  /** The same in terms of the objects: class 2606 is that of constraints. */
  lemma UnfilteredGapFreeIffCovered(tiers: map<UniqueID, Tier>, tierCount: nat, all: seq<Statement>,
                                    owner: Statement -> Option<UniqueID>)
    requires TiersPrinted(tiers, tierCount, all, owner)
    requires forall id | id in tiers :: HasStatement(all, owner, id) <==> id.classID != 2606
    ensures GapFree(all) <==>
              forall c, x | c in tiers && x in tiers && c.classID == 2606 && x.classID != 2606
                            && tiers[c].depth < tiers[x].depth ::
                exists y :: y in tiers && y.classID != 2606 && tiers[y].depth == tiers[c].depth
  {
    assert Printed(tiers, all, owner) == Predata(tiers);
    UnfilteredGapFreeIff(tiers, tierCount, all, owner);
    if t: nat :| ConstraintsOnly(tiers, t) {
      var c :| c in tiers && tiers[c].depth == t;
      var x :| x in Predata(tiers) && tiers[x].depth > t;
      assert c.classID == 2606;
    }
    forall c, x | c in tiers && x in tiers && c.classID == 2606 && x.classID != 2606 && tiers[c].depth < tiers[x].depth
                  && !DepthInUse(Predata(tiers), tiers, tiers[c].depth)
      ensures ConstraintsOnly(tiers, tiers[c].depth)
    {
      assert x in Predata(tiers);
    }
  }

  /** In particular it does if no sorted object but a constraint depends on a constraint. */
  lemma NothingOnConstraintsIsGapFree(ids: set<UniqueID>, dependencies: DependencyMap, tiers: map<UniqueID, Tier>,
                                      tierCount: nat, all: seq<Statement>, owner: Statement -> Option<UniqueID>)
    requires DepthsAreLongestChains(ids, dependencies, tiers) && Closed(ids, dependencies)
    requires TiersPrinted(tiers, tierCount, all, owner) && Printed(tiers, all, owner) == Predata(tiers)
    requires forall x, d | x in Predata(tiers) && d in Deps(dependencies, x) :: d.classID != PG_CONSTRAINT_OID
    ensures GapFree(all)
  {
    ClosedRestoreIsGapFree(ids, dependencies, tiers, tierCount, all, owner);
  }

  // ----- A view that depends on a primary key -----

  const TABLE := UniqueID(PG_CLASS_OID, 1)
  const PRIMARY_KEY := UniqueID(PG_CONSTRAINT_OID, 2)
  const VIEW := UniqueID(PG_CLASS_OID, 3)

  /** The key depends on its table, and the view on both. */
  const KEY_AND_VIEW: DependencyMap := map[PRIMARY_KEY := {TABLE}, VIEW := {TABLE, PRIMARY_KEY}]

  lemma DepthIsUnique(ids: set<UniqueID>, dependencies: DependencyMap, id: UniqueID, m: nat, n: nat)
    requires DepthIs(ids, dependencies, id, m) && DepthIs(ids, dependencies, id, n)
    ensures m == n
  {
  }

  lemma KeyAndViewDepths()
    ensures var ids := {TABLE, PRIMARY_KEY, VIEW};
      && Closed(ids, KEY_AND_VIEW) && Acyclic(ids, KEY_AND_VIEW)
      && DepthIs(ids, KEY_AND_VIEW, TABLE, 1) && DepthIs(ids, KEY_AND_VIEW, PRIMARY_KEY, 2)
      && DepthIs(ids, KEY_AND_VIEW, VIEW, 3)
  {
    var ids := {TABLE, PRIMARY_KEY, VIEW};
    var depth: map<UniqueID, nat> := map[TABLE := 1, PRIMARY_KEY := 2, VIEW := 3];
    assert PRIMARY_KEY in Deps(KEY_AND_VIEW, VIEW) && TABLE in Deps(KEY_AND_VIEW, PRIMARY_KEY);
    assert Layered(ids, KEY_AND_VIEW, depth);
    LayeredIsDepth(ids, KEY_AND_VIEW, depth);
    assert depth[TABLE] == 1 && depth[PRIMARY_KEY] == 2 && depth[VIEW] == 3;
  }

  lemma KeyAndViewTiers(tiers: map<UniqueID, Tier>)
    requires DepthsAreLongestChains({TABLE, PRIMARY_KEY, VIEW}, KEY_AND_VIEW, tiers)
    ensures tiers[TABLE].depth == 1 && tiers[PRIMARY_KEY].depth == 2 && tiers[VIEW].depth == 3
  {
    var ids := {TABLE, PRIMARY_KEY, VIEW};
    KeyAndViewDepths();
    forall id, n | id in ids && DepthIs(ids, KEY_AND_VIEW, id, n)
      ensures tiers[id].depth == n
    {
      DepthIsUnique(ids, KEY_AND_VIEW, id, tiers[id].depth, n);
    }
  }

  method SortKeyAndView() returns (tiers: map<UniqueID, Tier>)
    ensures tiers.Keys == {TABLE, PRIMARY_KEY, VIEW}
    ensures tiers[TABLE].depth == 1 && tiers[PRIMARY_KEY].depth == 2 && tiers[VIEW].depth == 3
  {
    var slice := [TABLE, PRIMARY_KEY, VIEW];
    assert Elems(slice) == {TABLE, PRIMARY_KEY, VIEW};
    KeyAndViewDepths();
    var result := TopologicalSort(slice, KEY_AND_VIEW);
    tiers := result.value.tiers;
    KeyAndViewTiers(tiers);
  }

  /** Sorting them and restoring all their pre-data statements in parallel: the statement of the view never runs. */
  method RestoreViewOnPrimaryKey(numConns: nat) returns (all: seq<Statement>, plan: seq<Phase>)
    requires numConns >= 2
    ensures |all| == 2 && all[1].name == "v" && IsPlan(all, numConns, plan)
    ensures Total(plan)[all[1]] == 0 && !GapFree(all)
  {
    var tiers := SortKeyAndView();
    var table, view := tiers[TABLE], tiers[VIEW];
    all := [Statement("t", "CREATE TABLE t", [table.depth, table.cohort]),
            Statement("v", "CREATE VIEW v", [view.depth, view.cohort])];
    plan := PlanPredata(all, numConns);
    assert Normalized(all) == all;
    TwoOfThreeTiers(all);
    PlanCount(all, numConns, plan, all[1]);
  }

  lemma TwoOfThreeTiers(all: seq<Statement>)
    requires |all| == 2 && Depth(all[0]) == 1 && Depth(all[1]) == 3
    ensures Depths(all) == {1, 3} && !GapFree(all)
  {
    assert Depth(all[0]) in Depths(all) && Depth(all[1]) in Depths(all);
    assert 1 <= 2 < Depth(all[1]) && 2 !in Depths(all);
  }
}

/** Cutting the dependency cycles between base types and their functions before the sort. */
module CircularDependencies {
  import opened Collections
  import opened DependencyGraph
  import opened DependencySort

  const PG_PROC_OID := 1255
  const PG_TYPE_OID := 1247

  /** A function and a type that depend on each other: the function's dependency is the one to be cut. */
  predicate IsCut(dependencies: DependencyMap, p: UniqueID, t: UniqueID) {
    && p.classID == PG_PROC_OID && t.classID == PG_TYPE_OID
    && t in Deps(dependencies, p) && p in Deps(dependencies, t)
  }

  /** The cuts in made have been made, and nothing else has changed. */
  ghost predicate CutSoFar(original: DependencyMap, current: DependencyMap, made: set<(UniqueID, UniqueID)>) {
    && current.Keys <= original.Keys
    && (forall id | id in current :: original[id] != {} ==> current[id] != {})
    && (forall id, d :: d in Deps(current, id) <==> d in Deps(original, id) && (id, d) !in made)
    && forall id, d | (id, d) in made :: IsCut(original, id, d)
  }

  /** All cuts there are to make. */
  ghost predicate AllCut(original: DependencyMap, current: DependencyMap) {
    && current.Keys <= original.Keys
    && (forall id | id in current :: original[id] != {} ==> current[id] != {})
    && forall id, d :: d in Deps(current, id) <==> d in Deps(original, id) && !IsCut(original, id, d)
  }

  /** Walking over the map in any order; an entry deleted before it is reached is not visited. */
  method BreakCircularDependencies(depMap: DependencyMap) returns (broken: DependencyMap)
    ensures AllCut(depMap, broken)
    ensures forall p, t :: t in Deps(broken, p) <==>
              t in Deps(depMap, p) && !(p.classID == 1255 && t.classID == 1247 && p in Deps(depMap, t))
  {
    broken := depMap;
    var left := depMap.Keys;
    ghost var made := {};
    while left != {}
      invariant left <= depMap.Keys
      invariant CutSoFar(depMap, broken, made)
      invariant forall p, t | IsCut(depMap, p, t) && t !in left :: (p, t) in made
      decreases left
    {
      var entry :| entry in left;
      TypesKeepTheirs(depMap, broken, made, entry);
      left := left - {entry};
      if entry in broken {
        broken, made := CutEntry(depMap, broken, made, entry);
      }
    }
  }

  /** Only functions lose dependencies. */
  lemma TypesKeepTheirs(original: DependencyMap, current: DependencyMap, made: set<(UniqueID, UniqueID)>, t: UniqueID)
    requires CutSoFar(original, current, made)
    ensures t.classID == PG_TYPE_OID ==> Deps(current, t) == Deps(original, t)
  {
  }

  /** The functions that a type depends on and that depend on it in turn lose that dependency. */
  method CutEntry(ghost original: DependencyMap, current: DependencyMap, ghost before: set<(UniqueID, UniqueID)>,
                  entry: UniqueID)
    returns (depMap: DependencyMap, ghost made: set<(UniqueID, UniqueID)>)
    requires entry in current && CutSoFar(original, current, before)
    ensures CutSoFar(original, depMap, made) && before <= made
    ensures forall p | IsCut(original, p, entry) :: (p, entry) in made
  {
    depMap, made := current, before;
    var left := current[entry];
    TypesKeepTheirs(original, current, before, entry);
    while left != {}
      invariant left <= current[entry]
      invariant CutSoFar(original, depMap, made) && before <= made
      invariant forall p | IsCut(original, p, entry) && p !in left :: (p, entry) in made
      decreases left
    {
      var dep :| dep in left;
      if dep in depMap && entry.classID == PG_TYPE_OID && dep.classID == PG_PROC_OID && entry in depMap[dep] {
        ghost var was := depMap;
        if |depMap[dep]| == 1 {
          OnlyOne(depMap[dep], entry);
          depMap := depMap - {dep};
        } else {
          MoreThanOne(depMap[dep], entry);
          depMap := depMap[dep := depMap[dep] - {entry}];
        }
        CutOne(original, was, made, depMap, dep, entry);
        made := made + {(dep, entry)};
      }
      left := left - {dep};
    }
  }

  lemma OnlyOne(s: set<UniqueID>, x: UniqueID)
    requires |s| == 1 && x in s
    ensures s == {x}
  {
    SubsetSize({x}, s);
  }

  lemma MoreThanOne(s: set<UniqueID>, x: UniqueID)
    requires |s| != 1 && x in s
    ensures s - {x} != {}
  {
    assert s == (s - {x}) + {x};
  }

  lemma CutOne(original: DependencyMap, was: DependencyMap, made: set<(UniqueID, UniqueID)>, now: DependencyMap,
               p: UniqueID, t: UniqueID)
    requires CutSoFar(original, was, made) && IsCut(original, p, t) && p in was
    requires now == (if was[p] == {t} then was - {p} else was[p := was[p] - {t}])
    requires was[p] != {t} ==> was[p] - {t} != {}
    ensures CutSoFar(original, now, made + {(p, t)})
  {
  }

  // ----- What the cuts do to the sort -----

  /** The chain goes over a dependency that is cut. */
  ghost predicate GoesOverCut(dependencies: DependencyMap, chain: seq<UniqueID>) {
    exists i, j :: 0 <= i < j < |chain| && j == i + 1 && IsCut(dependencies, chain[i], chain[j])
  }

  ghost predicate EveryCycleCut(ids: set<UniqueID>, dependencies: DependencyMap) {
    forall chain | IsChain(ids, dependencies, chain) && |chain| > 1 && chain[0] == chain[|chain| - 1] ::
      GoesOverCut(dependencies, chain)
  }

  /** The objects can be sorted after the cuts if and only if every dependency cycle went over one of them. */
  lemma AcyclicAfterCutsIff(ids: set<UniqueID>, original: DependencyMap, broken: DependencyMap)
    requires AllCut(original, broken)
    ensures Acyclic(ids, broken) <==> EveryCycleCut(ids, original)
  {
  }

  /** Cutting leaves the relation closed over the objects if it was. */
  lemma StaysClosed(ids: set<UniqueID>, original: DependencyMap, broken: DependencyMap)
    requires AllCut(original, broken) && Closed(ids, original)
    ensures Closed(ids, broken)
  {
  }

  // ----- From catalog rows to a sorted backup -----

  /** A row of the catalog's dependency table: an object and what it refers to. */
  datatype SortableDependency = SortableDependency(objectID: UniqueID, referenceID: UniqueID)

  /** A row between two different objects of the backup. */
  predicate Relevant(dep: SortableDependency, backupSet: set<UniqueID>) {
    dep.objectID != dep.referenceID && dep.objectID in backupSet && dep.referenceID in backupSet
  }

  /** What the first n rows say an object depends on. */
  function DepsIn(rows: seq<SortableDependency>, backupSet: set<UniqueID>, id: UniqueID, n: nat): set<UniqueID>
    requires n <= |rows|
  {
    set k | 0 <= k < n && rows[k].objectID == id && Relevant(rows[k], backupSet) :: rows[k].referenceID
  }

  /** The dependencies that the first n rows give the objects of a backup; objects without any have no entry. */
  ghost function MapOf(rows: seq<SortableDependency>, backupSet: set<UniqueID>, n: nat): DependencyMap
    requires n <= |rows|
  {
    map id | id in backupSet && DepsIn(rows, backupSet, id, n) != {} :: DepsIn(rows, backupSet, id, n)
  }

  lemma MapOfIs(rows: seq<SortableDependency>, backupSet: set<UniqueID>, n: nat, id: UniqueID)
    requires n <= |rows|
    ensures Deps(MapOf(rows, backupSet, n), id) == DepsIn(rows, backupSet, id, n)
  {
  }

  /** There is a row between two different objects of the backup. */
  ghost predicate HasRow(rows: seq<SortableDependency>, backupSet: set<UniqueID>, id: UniqueID, d: UniqueID) {
    id != d && id in backupSet && d in backupSet && SortableDependency(id, d) in rows
  }

  lemma MapOfRows(rows: seq<SortableDependency>, backupSet: set<UniqueID>, id: UniqueID, d: UniqueID)
    ensures d in Deps(MapOf(rows, backupSet, |rows|), id) <==> HasRow(rows, backupSet, id, d)
  {
    MapOfIs(rows, backupSet, |rows|, id);
    if HasRow(rows, backupSet, id, d) {
      var k :| 0 <= k < |rows| && rows[k] == SortableDependency(id, d);
      assert d in DepsIn(rows, backupSet, id, |rows|);
    }
  }

  /** A function (class 1255) on a type (class 1247) that depends on it in turn. */
  ghost predicate IsInverse(rows: seq<SortableDependency>, backupSet: set<UniqueID>, p: UniqueID, t: UniqueID) {
    p.classID == 1255 && t.classID == 1247 && HasRow(rows, backupSet, p, t) && HasRow(rows, backupSet, t, p)
  }

  ghost predicate Before(sorted: seq<UniqueID>, x: UniqueID, y: UniqueID) {
    exists i, j :: 0 <= i < j < |sorted| && sorted[i] == x && sorted[j] == y
  }

  /** The dependencies between the objects of a backup, without those that are cut. */
  method GetDependencies(rows: seq<SortableDependency>, backupSet: set<UniqueID>)
    returns (dependencyMap: DependencyMap)
    ensures AllCut(MapOf(rows, backupSet, |rows|), dependencyMap)
    ensures forall id, d :: d in Deps(dependencyMap, id) <==>
              HasRow(rows, backupSet, id, d) && !IsInverse(rows, backupSet, id, d)
  {
    dependencyMap := map[];
    for i := 0 to |rows|
      invariant dependencyMap == MapOf(rows, backupSet, i)
    {
      var objectID, referenceID := rows[i].objectID, rows[i].referenceID;
      if Relevant(rows[i], backupSet) {
        if objectID !in dependencyMap {
          dependencyMap := dependencyMap[objectID := {}];
        }
        dependencyMap := dependencyMap[objectID := dependencyMap[objectID] + {referenceID}];
      }
      AddRow(rows, backupSet, i);
    }
    dependencyMap := BreakCircularDependencies(dependencyMap);
    forall id, d
      ensures d in Deps(dependencyMap, id) <==>
              HasRow(rows, backupSet, id, d) && !IsInverse(rows, backupSet, id, d)
    {
      MapOfRows(rows, backupSet, id, d);
      MapOfRows(rows, backupSet, d, id);
    }
  }

  lemma AddRowDeps(rows: seq<SortableDependency>, backupSet: set<UniqueID>, i: nat, id: UniqueID)
    requires i < |rows|
    ensures DepsIn(rows, backupSet, id, i + 1) ==
            DepsIn(rows, backupSet, id, i) +
            if Relevant(rows[i], backupSet) && rows[i].objectID == id then {rows[i].referenceID} else {}
  {
  }

  lemma AddRow(rows: seq<SortableDependency>, backupSet: set<UniqueID>, i: nat)
    requires i < |rows|
    ensures var before, objectID := MapOf(rows, backupSet, i), rows[i].objectID;
            MapOf(rows, backupSet, i + 1) ==
            if Relevant(rows[i], backupSet) then before[objectID := Deps(before, objectID) + {rows[i].referenceID}]
            else before
  {
    var before, after, objectID := MapOf(rows, backupSet, i), MapOf(rows, backupSet, i + 1), rows[i].objectID;
    MapOfIs(rows, backupSet, i, objectID);
    var expected: DependencyMap :=
      if Relevant(rows[i], backupSet) then before[objectID := Deps(before, objectID) + {rows[i].referenceID}]
      else before;
    forall id
      ensures id in after <==> id in expected
      ensures id in after ==> after[id] == expected[id]
    {
      AddRowDeps(rows, backupSet, i, id);
    }
    assert after == expected;
  }

  /**
   * Whatever rows the catalog has, the objects of a backup can be sorted if and only if every cycle among their
   * dependencies goes over a cut one; the order, tiers and cohorts are then right for the dependencies left.
   */
  method SortObjects(rows: seq<SortableDependency>, slice: seq<UniqueID>) returns (result: Option<SortResult>)
    requires NoDup(slice)
    ensures result.Some? <==> EveryCycleCut(Elems(slice), MapOf(rows, Elems(slice), |rows|))
    ensures result.Some? ==>
              exists broken, tierCount, cohortCount ::
                && AllCut(MapOf(rows, Elems(slice), |rows|), broken)
                && SortedWell(slice, broken, result.value, tierCount, cohortCount)
    ensures result.Some? ==>
              && (forall id, d | HasRow(rows, Elems(slice), id, d) && !IsInverse(rows, Elems(slice), id, d) ::
                    Before(result.value.sorted, d, id))
              && forall p, t | IsInverse(rows, Elems(slice), p, t) :: Before(result.value.sorted, p, t)
  {
    ghost var built := MapOf(rows, Elems(slice), |rows|);
    var relevantDeps := GetDependencies(rows, Elems(slice));
    assert Closed(Elems(slice), built);
    AcyclicAfterCutsIff(Elems(slice), built, relevantDeps);
    StaysClosed(Elems(slice), built, relevantDeps);
    result := TopologicalSort(slice, relevantDeps);
    if result.Some? {
      var sorted := result.value.sorted;
      forall id, d | HasRow(rows, Elems(slice), id, d) && !IsInverse(rows, Elems(slice), id, d)
        ensures Before(sorted, d, id)
      {
        assert id in multiset(slice) && id in multiset(sorted);
        DependencyBefore(sorted, relevantDeps, id, d);
      }
      forall p, t | IsInverse(rows, Elems(slice), p, t)
        ensures Before(sorted, p, t)
      {
        assert HasRow(rows, Elems(slice), t, p) && !IsInverse(rows, Elems(slice), t, p);
      }
    }
  }

  lemma DependencyBefore(sorted: seq<UniqueID>, dependencies: DependencyMap, id: UniqueID, d: UniqueID)
    requires DependenciesFirst(sorted, dependencies) && id in sorted && d in Deps(dependencies, id)
    ensures Before(sorted, d, id)
  {
    var j :| 0 <= j < |sorted| && sorted[j] == id;
    assert d in Visited(sorted, j);
    var i :| 0 <= i < j && sorted[i] == d;
  }
}

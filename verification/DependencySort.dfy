/** The layered dependency sort that orders metadata and assigns its restore tiers. */
module DependencySort {
  import opened Collections
  import opened DependencyGraph
  import opened Cohorts

  /** How many dependencies of each object are still unsorted. */
  ghost predicate DegreesOK(ids: set<UniqueID>, dependencies: DependencyMap, inDegrees: map<UniqueID, int>,
                            done: set<UniqueID>) {
    && inDegrees.Keys == ids
    && forall id | id in ids :: inDegrees[id] == Count(Deps(dependencies, id) - done)
  }

  /** The unsorted objects whose dependencies are all sorted. */
  ghost function ReadySet(ids: set<UniqueID>, dependencies: DependencyMap, done: set<UniqueID>): set<UniqueID> {
    set id | id in ids && id !in done && Deps(dependencies, id) <= done
  }

  /** The objects that became ready while done0 grew to done. */
  ghost function Released(ids: set<UniqueID>, dependencies: DependencyMap, done0: set<UniqueID>,
                          done: set<UniqueID>): set<UniqueID> {
    set id | id in ids && Deps(dependencies, id) <= done && !(Deps(dependencies, id) <= done0)
  }

  /** Where each of the first n objects stands in the slice. */
  ghost predicate PositionsOf(slice: seq<UniqueID>, n: nat, dependencyIndexes: map<UniqueID, nat>)
    requires n <= |slice|
  {
    && dependencyIndexes.Keys == Visited(slice, n)
    && forall id | id in dependencyIndexes :: dependencyIndexes[id] < |slice| && slice[dependencyIndexes[id]] == id
  }

  ghost predicate Positions(slice: seq<UniqueID>, dependencyIndexes: map<UniqueID, nat>) {
    && dependencyIndexes.Keys == Elems(slice)
    && forall id | id in dependencyIndexes :: dependencyIndexes[id] < |slice| && slice[dependencyIndexes[id]] == id
  }

  lemma PositionOne(slice: seq<UniqueID>, n: nat, dependencyIndexes: map<UniqueID, nat>)
    requires n < |slice| && PositionsOf(slice, n, dependencyIndexes)
    ensures PositionsOf(slice, n + 1, dependencyIndexes[slice[n] := n])
  {
  }

  ghost predicate NoRepeats(isDependentOn: map<UniqueID, seq<UniqueID>>) {
    forall d | d in isDependentOn :: NoDup(isDependentOn[d])
  }

  /** The first loop: counts and reverses the dependencies, and queues the objects without any. */
  method CountDependencies(slice: seq<UniqueID>, dependencies: DependencyMap)
    returns (inDegrees: map<UniqueID, int>, dependencyIndexes: map<UniqueID, nat>,
             isDependentOn: map<UniqueID, seq<UniqueID>>, queue: seq<UniqueID>)
    requires NoDup(slice)
    ensures DegreesOK(Elems(slice), dependencies, inDegrees, {})
    ensures Positions(slice, dependencyIndexes)
    ensures Reverses(Elems(slice), dependencies, isDependentOn) && NoRepeats(isDependentOn)
    ensures Lists(queue, ReadySet(Elems(slice), dependencies, {}))
  {
    inDegrees, dependencyIndexes, isDependentOn, queue := map[], map[], map[], [];
    VisitedAll(slice);
    var i := 0;
    while i < |slice|
      invariant 0 <= i <= |slice|
      invariant Counted(Visited(slice, i), dependencies, inDegrees, queue)
      invariant PositionsOf(slice, i, dependencyIndexes)
      invariant Reverses(Visited(slice, i), dependencies, isDependentOn) && NoRepeats(isDependentOn)
    {
      var id := slice[i];
      VisitOne(slice, i);
      var deps := Deps(dependencies, id);
      CountOne(Visited(slice, i), dependencies, inDegrees, id, queue);
      PositionOne(slice, i, dependencyIndexes);
      inDegrees := inDegrees[id := |deps|];
      isDependentOn := AppendDependent(isDependentOn, Visited(slice, i), dependencies, id);
      dependencyIndexes := dependencyIndexes[id := i];
      if |deps| == 0 {
        queue := queue + [id];
      }
      i := i + 1;
    }
  }

  ghost predicate Counted(seen: set<UniqueID>, dependencies: DependencyMap, inDegrees: map<UniqueID, int>,
                          queue: seq<UniqueID>) {
    DegreesOK(seen, dependencies, inDegrees, {}) && Lists(queue, ReadySet(seen, dependencies, {}))
  }

  lemma CountOne(seen: set<UniqueID>, dependencies: DependencyMap, inDegrees: map<UniqueID, int>, id: UniqueID,
                 queue: seq<UniqueID>)
    requires id !in seen && Counted(seen, dependencies, inDegrees, queue)
    ensures var deps := Deps(dependencies, id);
      Counted(seen + {id}, dependencies, inDegrees[id := |deps|], if |deps| == 0 then queue + [id] else queue)
  {
    DegreesGrow(seen, dependencies, inDegrees, id);
    ReadyGrows(seen, dependencies, id);
    if |Deps(dependencies, id)| == 0 {
      ListOneMore(queue, ReadySet(seen, dependencies, {}), id);
    }
  }

  lemma DegreesGrow(seen: set<UniqueID>, dependencies: DependencyMap, inDegrees: map<UniqueID, int>, id: UniqueID)
    requires id !in seen && DegreesOK(seen, dependencies, inDegrees, {})
    ensures DegreesOK(seen + {id}, dependencies, inDegrees[id := |Deps(dependencies, id)|], {})
  {
    assert Deps(dependencies, id) - {} == Deps(dependencies, id);
    CountIsSize(Deps(dependencies, id));
  }

  lemma ReadyGrows(seen: set<UniqueID>, dependencies: DependencyMap, id: UniqueID)
    requires id !in seen
    ensures ReadySet(seen + {id}, dependencies, {}) ==
            ReadySet(seen, dependencies, {}) + if |Deps(dependencies, id)| == 0 then {id} else {}
  {
  }

  /** Appends id to the dependents of each of its dependencies, taken in any order. */
  method AppendDependent(before: map<UniqueID, seq<UniqueID>>, ghost ids: set<UniqueID>, dependencies: DependencyMap,
                         id: UniqueID)
    returns (isDependentOn: map<UniqueID, seq<UniqueID>>)
    requires id !in ids && Reverses(ids, dependencies, before) && NoRepeats(before)
    ensures Reverses(ids + {id}, dependencies, isDependentOn) && NoRepeats(isDependentOn)
  {
    isDependentOn := before;
    var rest := Deps(dependencies, id);
    while rest != {}
      invariant rest <= Deps(dependencies, id)
      invariant forall d | d in rest :: DependentsOf(isDependentOn, d) == DependentsOf(before, d)
      invariant Reverses'(ids, dependencies, id, Deps(dependencies, id) - rest, isDependentOn)
      invariant NoRepeats(isDependentOn)
    {
      var dep :| dep in rest;
      assert Elems(DependentsOf(before, dep)) == DependentSet(ids, dependencies, dep);
      ListOneMore(DependentsOf(isDependentOn, dep), DependentSet(ids, dependencies, dep), id);
      isDependentOn := isDependentOn[dep := DependentsOf(isDependentOn, dep) + [id]];
      rest := rest - {dep};
    }
    forall d
      ensures Elems(DependentsOf(isDependentOn, d)) == DependentSet(ids + {id}, dependencies, d)
    {
      assert DependentSet(ids + {id}, dependencies, d) ==
             DependentSet(ids, dependencies, d) + if d in Deps(dependencies, id) then {id} else {};
    }
  }

  /** The reversed relation over ids, and over id restricted to the dependencies in part. */
  ghost predicate Reverses'(ids: set<UniqueID>, dependencies: DependencyMap, id: UniqueID, part: set<UniqueID>,
                            isDependentOn: map<UniqueID, seq<UniqueID>>)
  {
    forall d :: Elems(DependentsOf(isDependentOn, d)) == DependentSet(ids, dependencies, d) +
      if d in part then {id} else {}
  }

  lemma CountInsert<T>(s: set<T>, x: T)
    requires x !in s
    ensures Count(s + {x}) == Count(s) + 1
  {
    CountIsSize(s);
    CountIsSize(s + {x});
  }

  lemma OneDependencyLess(deps: set<UniqueID>, done: set<UniqueID>, item: UniqueID)
    requires item !in done
    ensures Count(deps - (done + {item})) == Count(deps - done) - if item in deps then 1 else 0
    ensures Count(deps - (done + {item})) == 0 <==> deps <= done + {item}
  {
    NoneLeft(deps, done + {item});
    LessOne(deps, done, item);
    CountWithout(deps - (done + {item}), deps - done, item);
  }

  lemma CountWithout(less: set<UniqueID>, more: set<UniqueID>, item: UniqueID)
    requires item !in less && (more == less || more == less + {item})
    ensures Count(less) == Count(more) - if item in more then 1 else 0
  {
    if item in more {
      CountInsert(less, item);
    }
  }

  lemma LessOne(deps: set<UniqueID>, done: set<UniqueID>, item: UniqueID)
    requires item !in done
    ensures item in deps ==> deps - done == (deps - (done + {item})) + {item}
    ensures item !in deps ==> deps - done == deps - (done + {item})
  {
  }

  lemma NoneLeft(deps: set<UniqueID>, done: set<UniqueID>)
    ensures Count(deps - done) == 0 <==> deps <= done
  {
    if deps <= done {
      assert deps - done == {};
    } else {
      var x :| x in deps && x !in done;
      assert x in deps - done;
    }
  }

  /** The state of the loop over the dependents of item, after n of them. */
  ghost predicate Releasing(ids: set<UniqueID>, dependencies: DependencyMap, dependents: seq<UniqueID>, item: UniqueID,
                            done0: set<UniqueID>, done: set<UniqueID>, n: nat,
                            inDegrees: map<UniqueID, int>, nextTier: seq<UniqueID>)
  {
    && n <= |dependents|
    && inDegrees.Keys == ids
    && (forall id | id in ids ::
          inDegrees[id] == Count(Deps(dependencies, id) - done) - if id in Visited(dependents, n) then 1 else 0)
    && Lists(nextTier, ReleasedSoFar(ids, dependencies, done0, done, item, Visited(dependents, n)))
  }

  ghost function ReleasedSoFar(ids: set<UniqueID>, dependencies: DependencyMap, done0: set<UniqueID>,
                               done: set<UniqueID>,
                               item: UniqueID, visited: set<UniqueID>): set<UniqueID>
  {
    Released(ids, dependencies, done0, done) + Released(ids, dependencies, done0, done + {item}) * visited
  }

  /** The count of a dependent drops to zero exactly when the sorted item was its last dependency. */
  lemma ReleaseOne(ids: set<UniqueID>, dependencies: DependencyMap, dep: UniqueID, item: UniqueID,
                   done0: set<UniqueID>, done: set<UniqueID>, degree: int, visited: set<UniqueID>)
    requires dep in ids && item in Deps(dependencies, dep) && item !in done && done0 <= done && dep !in visited
    requires degree == Count(Deps(dependencies, dep) - done) - 1
    ensures dep !in ReleasedSoFar(ids, dependencies, done0, done, item, visited)
    ensures ReleasedSoFar(ids, dependencies, done0, done, item, visited + {dep}) ==
            ReleasedSoFar(ids, dependencies, done0, done, item, visited) + if degree == 0 then {dep} else {}
  {
    OneDependencyLess(Deps(dependencies, dep), done, item);
  }

  lemma ReleaseStep(ids: set<UniqueID>, dependencies: DependencyMap, dependents: seq<UniqueID>, item: UniqueID,
                    done0: set<UniqueID>, done: set<UniqueID>, n: nat,
                    inDegrees: map<UniqueID, int>, nextTier: seq<UniqueID>)
    requires item !in done && done0 <= done && n < |dependents| && NoDup(dependents)
    requires dependents[n] in ids && item in Deps(dependencies, dependents[n])
    requires Releasing(ids, dependencies, dependents, item, done0, done, n, inDegrees, nextTier)
    ensures var dep := dependents[n];
      var degree := inDegrees[dep] - 1;
      Releasing(ids, dependencies, dependents, item, done0, done, n + 1,
                inDegrees[dep := degree], if degree == 0 then nextTier + [dep] else nextTier)
  {
    var dep := dependents[n];
    VisitOne(dependents, n);
    ReleaseOne(ids, dependencies, dep, item, done0, done, inDegrees[dep] - 1, Visited(dependents, n));
    ListOneMore(nextTier, ReleasedSoFar(ids, dependencies, done0, done, item, Visited(dependents, n)), dep);
  }

  lemma ReleaseNone(ids: set<UniqueID>, dependencies: DependencyMap, dependents: seq<UniqueID>, item: UniqueID,
                    done0: set<UniqueID>, done: set<UniqueID>, inDegrees: map<UniqueID, int>, nextTier: seq<UniqueID>)
    requires DegreesOK(ids, dependencies, inDegrees, done) && Lists(nextTier, Released(ids, dependencies, done0, done))
    ensures Releasing(ids, dependencies, dependents, item, done0, done, 0, inDegrees, nextTier)
  {
  }

  lemma ReleaseAll(ids: set<UniqueID>, dependencies: DependencyMap, dependents: seq<UniqueID>, item: UniqueID,
                   done0: set<UniqueID>, done: set<UniqueID>, inDegrees: map<UniqueID, int>, nextTier: seq<UniqueID>)
    requires item !in done && done0 <= done
    requires Lists(dependents, DependentSet(ids, dependencies, item))
    requires Releasing(ids, dependencies, dependents, item, done0, done, |dependents|, inDegrees, nextTier)
    ensures DegreesOK(ids, dependencies, inDegrees, done + {item})
    ensures Lists(nextTier, Released(ids, dependencies, done0, done + {item}))
  {
    VisitedAll(dependents);
    forall id | id in ids
      ensures inDegrees[id] == Count(Deps(dependencies, id) - (done + {item}))
    {
      OneDependencyLess(Deps(dependencies, id), done, item);
    }
    assert ReleasedSoFar(ids, dependencies, done0, done, item, Elems(dependents)) ==
           Released(ids, dependencies, done0, done + {item});
  }

  /** The loop over the dependents of one object taken off the queue. */
  method ReleaseDependents(slice: seq<UniqueID>, dependencies: DependencyMap, dependents: seq<UniqueID>,
                           dependencyIndexes: map<UniqueID, nat>, item: UniqueID,
                           degrees: map<UniqueID, int>, pending: seq<UniqueID>,
                           ghost done0: set<UniqueID>, ghost done: set<UniqueID>)
    returns (inDegrees: map<UniqueID, int>, nextTier: seq<UniqueID>)
    requires done0 <= done && item !in done
    requires Positions(slice, dependencyIndexes)
    requires Lists(dependents, DependentSet(Elems(slice), dependencies, item))
    requires DegreesOK(Elems(slice), dependencies, degrees, done)
    requires Lists(pending, Released(Elems(slice), dependencies, done0, done))
    ensures DegreesOK(Elems(slice), dependencies, inDegrees, done + {item})
    ensures Lists(nextTier, Released(Elems(slice), dependencies, done0, done + {item}))
  {
    inDegrees, nextTier := degrees, pending;
    ghost var ids := Elems(slice);
    ReleaseNone(ids, dependencies, dependents, item, done0, done, inDegrees, nextTier);
    var j := 0;
    while j < |dependents|
      invariant 0 <= j <= |dependents|
      invariant Releasing(ids, dependencies, dependents, item, done0, done, j, inDegrees, nextTier)
    {
      var dep := dependents[j];
      assert dep in Elems(dependents);
      ReleaseStep(ids, dependencies, dependents, item, done0, done, j, inDegrees, nextTier);
      inDegrees := inDegrees[dep := inDegrees[dep] - 1];
      if inDegrees[dep] == 0 {
        nextTier := nextTier + [slice[dependencyIndexes[dep]]];
      }
      j := j + 1;
    }
    ReleaseAll(ids, dependencies, dependents, item, done0, done, inDegrees, nextTier);
  }

  /** The state of the loop over one tier, after n of its objects were sorted. */
  ghost predicate Sorting(ids: set<UniqueID>, dependencies: DependencyMap, tierCount: nat, tier: seq<UniqueID>,
                          done0: set<UniqueID>, tierMap0: map<UniqueID, Tier>, n: nat,
                          inDegrees: map<UniqueID, int>, tierMap: map<UniqueID, Tier>, nextTier: seq<UniqueID>)
  {
    && n <= |tier|
    && DegreesOK(ids, dependencies, inDegrees, done0 + Visited(tier, n))
    && Lists(nextTier, Released(ids, dependencies, done0, done0 + Visited(tier, n)))
    && tierMap.Keys == tierMap0.Keys
    && forall id | id in tierMap0 ::
         tierMap[id] == if id in Visited(tier, n) then tierMap0[id].(depth := tierCount) else tierMap0[id]
  }

  /** Sorts one whole tier: everything on the queue, collecting what becomes ready for the next. */
  method SortTier(slice: seq<UniqueID>, dependencies: DependencyMap, isDependentOn: map<UniqueID, seq<UniqueID>>,
                  dependencyIndexes: map<UniqueID, nat>, tierCount: nat, tier: seq<UniqueID>,
                  sorted0: seq<UniqueID>, inDegrees0: map<UniqueID, int>, tierMap0: map<UniqueID, Tier>)
    returns (sorted: seq<UniqueID>, inDegrees: map<UniqueID, int>, tierMap: map<UniqueID, Tier>,
             nextTier: seq<UniqueID>)
    requires Reverses(Elems(slice), dependencies, isDependentOn) && NoRepeats(isDependentOn)
    requires Positions(slice, dependencyIndexes)
    requires DegreesOK(Elems(slice), dependencies, inDegrees0, Elems(sorted0))
    requires Lists(tier, ReadySet(Elems(slice), dependencies, Elems(sorted0)))
    requires tierMap0.Keys == Elems(slice)
    ensures sorted == sorted0 + tier
    ensures Sorting(Elems(slice), dependencies, tierCount, tier, Elems(sorted0), tierMap0, |tier|, inDegrees, tierMap,
                    nextTier)
  {
    sorted, inDegrees, tierMap, nextTier := sorted0, inDegrees0, tierMap0, [];
    var queue := tier;
    ghost var ids := Elems(slice);
    ghost var done0 := Elems(sorted0);
    ghost var k := 0;
    SortingNone(ids, dependencies, tierCount, tier, done0, inDegrees, tierMap);
    while |queue| > 0
      invariant 0 <= k <= |tier| && queue == tier[k..] && sorted == sorted0 + tier[..k]
      invariant Sorting(ids, dependencies, tierCount, tier, done0, tierMap0, k, inDegrees, tierMap, nextTier)
      decreases |queue|
    {
      var item := queue[0];
      ghost var before := tierMap;
      VisitOne(tier, k);
      DropOne(tier, k);
      TakeOneMore(sorted0, tier, k);
      queue := queue[1..];
      tierMap := tierMap[item := tierMap[item].(depth := tierCount)];
      sorted := sorted + [item];
      inDegrees, nextTier := ReleaseDependents(slice, dependencies, DependentsOf(isDependentOn, item),
                                               dependencyIndexes, item,
                                               inDegrees, nextTier, done0, done0 + Visited(tier, k));
      SortingOne(ids, dependencies, tierCount, tier, done0, tierMap0, k, before, inDegrees, nextTier);
      k := k + 1;
    }
  }

  lemma SortingNone(ids: set<UniqueID>, dependencies: DependencyMap, tierCount: nat, tier: seq<UniqueID>,
                    done0: set<UniqueID>, inDegrees: map<UniqueID, int>, tierMap: map<UniqueID, Tier>)
    requires DegreesOK(ids, dependencies, inDegrees, done0)
    ensures Sorting(ids, dependencies, tierCount, tier, done0, tierMap, 0, inDegrees, tierMap, [])
  {
    VisitedAll(tier);
    assert done0 + {} == done0;
    assert Released(ids, dependencies, done0, done0) == {} == Elems<UniqueID>([]);
  }

  lemma SortingOne(ids: set<UniqueID>, dependencies: DependencyMap, tierCount: nat, tier: seq<UniqueID>,
                   done0: set<UniqueID>, tierMap0: map<UniqueID, Tier>, n: nat, tierMap: map<UniqueID, Tier>,
                   inDegrees: map<UniqueID, int>, nextTier: seq<UniqueID>)
    requires n < |tier| && NoDup(tier) && tierMap.Keys == tierMap0.Keys && tier[n] in tierMap0
    requires forall id | id in tierMap0 ::
               tierMap[id] == if id in Visited(tier, n) then tierMap0[id].(depth := tierCount) else tierMap0[id]
    requires DegreesOK(ids, dependencies, inDegrees, done0 + Visited(tier, n) + {tier[n]})
    requires Lists(nextTier, Released(ids, dependencies, done0, done0 + Visited(tier, n) + {tier[n]}))
    ensures Sorting(ids, dependencies, tierCount, tier, done0, tierMap0, n + 1, inDegrees,
                    tierMap[tier[n] := tierMap[tier[n]].(depth := tierCount)], nextTier)
  {
    VisitOne(tier, n);
    assert done0 + Visited(tier, n) + {tier[n]} == done0 + Visited(tier, n + 1);
  }

  lemma ReleasedIsReady(ids: set<UniqueID>, dependencies: DependencyMap, done0: set<UniqueID>, tier: set<UniqueID>)
    requires forall id | id in done0 :: Deps(dependencies, id) <= done0
    requires tier == ReadySet(ids, dependencies, done0)
    ensures Released(ids, dependencies, done0, done0 + tier) == ReadySet(ids, dependencies, done0 + tier)
  {
  }

  function DepthMap(tiers: map<UniqueID, Tier>): map<UniqueID, nat> {
    map id | id in tiers :: tiers[id].depth
  }

  /** Depths assigned so far: sorted objects are layered below tierCount, and every lower tier is in use. */
  ghost predicate LayeredSoFar(dependencies: DependencyMap, done: set<UniqueID>, tiers: map<UniqueID, Tier>,
                               tierCount: nat) {
    && done <= tiers.Keys
    && (forall id | id in done :: 1 <= tiers[id].depth <= tierCount && PlacedRight(dependencies, done, tiers, id))
    && (forall t | 1 <= t <= tierCount :: DepthInUse(done, tiers, t))
  }

  /** id is one tier above its highest dependency. */
  ghost predicate PlacedRight(dependencies: DependencyMap, done: set<UniqueID>, tiers: map<UniqueID, Tier>,
                              id: UniqueID) {
    && id in tiers
    && Deps(dependencies, id) <= done <= tiers.Keys
    && (forall d | d in Deps(dependencies, id) :: tiers[d].depth < tiers[id].depth)
    && (tiers[id].depth > 1 ==> HasDependencyAt(dependencies, tiers, id, tiers[id].depth - 1))
  }

  ghost predicate HasDependencyAt(dependencies: DependencyMap, tiers: map<UniqueID, Tier>, id: UniqueID, t: nat) {
    exists d :: d in Deps(dependencies, id) && d in tiers && tiers[d].depth == t
  }

  ghost predicate DepthInUse(ids: set<UniqueID>, tiers: map<UniqueID, Tier>, t: nat) {
    exists id :: id in ids && id in tiers && tiers[id].depth == t
  }

  lemma LayerGrows(ids: set<UniqueID>, dependencies: DependencyMap, done0: set<UniqueID>, tier: set<UniqueID>,
                   prev: set<UniqueID>,
                   tiers0: map<UniqueID, Tier>, tiers: map<UniqueID, Tier>, tierCount: nat)
    requires tierCount >= 1 && LayeredSoFar(dependencies, done0, tiers0, tierCount - 1)
    requires tier == ReadySet(ids, dependencies, done0) && tier != {}
    requires ids <= tiers0.Keys == tiers.Keys
    requires forall id | id in tiers :: tiers[id] == if id in tier then tiers0[id].(depth := tierCount) else tiers0[id]
    requires prev <= done0 && forall d | d in prev :: tiers0[d].depth == tierCount - 1
    requires tierCount > 1 ==> forall id {:trigger DependsInto(dependencies, id, prev)} | id in tier ::
             DependsInto(dependencies, id, prev)
    ensures LayeredSoFar(dependencies, done0 + tier, tiers, tierCount)
  {
    var done := done0 + tier;
    forall id | id in done
      ensures 1 <= tiers[id].depth <= tierCount && PlacedRight(dependencies, done, tiers, id)
    {
      if id in tier {
        if tierCount > 1 {
          assert DependsInto(dependencies, id, prev);
          var d :| d in Deps(dependencies, id) && d in prev;
          assert d in done0 && d !in tier && tiers[d].depth == tierCount - 1;
          assert HasDependencyAt(dependencies, tiers, id, tierCount - 1);
        }
      } else {
        assert id in done0 && PlacedRight(dependencies, done0, tiers0, id);
        if tiers[id].depth > 1 {
          assert HasDependencyAt(dependencies, tiers0, id, tiers[id].depth - 1);
          var d :| d in Deps(dependencies, id) && d in tiers0 && tiers0[d].depth == tiers[id].depth - 1;
          assert tiers[d].depth == tiers[id].depth - 1;
        }
      }
    }
    forall t | 1 <= t <= tierCount
      ensures DepthInUse(done, tiers, t)
    {
      if t == tierCount {
        var id :| id in tier;
        assert tiers[id].depth == t;
      } else {
        assert DepthInUse(done0, tiers0, t);
        var id :| id in done0 && id in tiers0 && tiers0[id].depth == t;
        assert tiers[id].depth == t;
      }
    }
  }

  /** What is reported on success. */
  datatype SortResult = SortResult(sorted: seq<UniqueID>, tiers: map<UniqueID, Tier>)

  /** Every dependency of an object stands before it. */
  ghost predicate DependenciesFirst(sorted: seq<UniqueID>, dependencies: DependencyMap) {
    forall i | 0 <= i < |sorted| :: Deps(dependencies, sorted[i]) <= Visited(sorted, i)
  }

  ghost predicate DepthsAreLongestChains(ids: set<UniqueID>, dependencies: DependencyMap, tiers: map<UniqueID, Tier>) {
    && ids == tiers.Keys
    && forall id | id in ids :: DepthIs(ids, dependencies, id, tiers[id].depth)
  }

  /** The depth tiers in use are exactly 1..count. */
  ghost predicate DepthsTo(tiers: map<UniqueID, Tier>, count: nat) {
    && (forall id | id in tiers :: 1 <= tiers[id].depth <= count)
    && (forall t | 1 <= t <= count :: DepthInUse(tiers.Keys, tiers, t))
  }

  lemma LayersAreDepths(ids: set<UniqueID>, dependencies: DependencyMap, tiers: map<UniqueID, Tier>, tierCount: nat)
    requires tiers.Keys == ids && LayeredSoFar(dependencies, ids, tiers, tierCount)
    ensures DepthsAreLongestChains(ids, dependencies, tiers) && DepthsTo(tiers, tierCount)
    ensures Closed(ids, dependencies) && Acyclic(ids, dependencies)
  {
    var depth := DepthMap(tiers);
    forall id | id in ids && depth[id] > 1
      ensures exists d :: d in Deps(dependencies, id) && d in depth && depth[d] == depth[id] - 1
    {
      assert PlacedRight(dependencies, ids, tiers, id);
      var d :| d in Deps(dependencies, id) && d in tiers && tiers[d].depth == tiers[id].depth - 1;
      assert depth[d] == depth[id] - 1;
    }
    assert Layered(ids, dependencies, depth) by {
      forall id | id in ids
        ensures forall d | d in Deps(dependencies, id) :: d in ids && d in depth && depth[d] < depth[id]
      {
        assert PlacedRight(dependencies, ids, tiers, id);
      }
    }
    LayeredIsDepth(ids, dependencies, depth);
  }

  /** Objects that never became ready include a cycle or a dependency outside the slice. */
  lemma StuckMeansUnsortable(ids: set<UniqueID>, dependencies: DependencyMap, done: set<UniqueID>)
    requires done <= ids && done != ids && ReadySet(ids, dependencies, done) == {}
    ensures !(Closed(ids, dependencies) && Acyclic(ids, dependencies))
  {
    if Closed(ids, dependencies) {
      var group := ids - done;
      assert done + group == ids;
      forall id | id in group
        ensures DependsInto(dependencies, id, group)
      {
        assert id !in ReadySet(ids, dependencies, done);
        var d :| d in Deps(dependencies, id) && d !in done;
        assert d in group;
      }
      StuckGroupIsCyclic(ids, dependencies, group);
    }
  }

  /** Between tiers: level tiers are sorted, prev is the last of them, nextTier is ready. */
  ghost predicate BetweenTiers(ids: set<UniqueID>, dependencies: DependencyMap, level: nat, prev: set<UniqueID>,
                               sorted: seq<UniqueID>, inDegrees: map<UniqueID, int>, tierMap: map<UniqueID, Tier>,
                               nextTier: seq<UniqueID>)
  {
    && Elems(sorted) <= ids && NoDup(sorted) && DependenciesFirst(sorted, dependencies)
    && DegreesOK(ids, dependencies, inDegrees, Elems(sorted))
    && Lists(nextTier, ReadySet(ids, dependencies, Elems(sorted)))
    && tierMap.Keys == ids
    && LayeredSoFar(dependencies, Elems(sorted), tierMap, level)
    && prev <= Elems(sorted)
    && (forall d | d in prev :: tierMap[d].depth == level)
    && (level > 0 ==> WaitFor(dependencies, Elems(nextTier), prev))
  }

  ghost predicate WaitFor(dependencies: DependencyMap, tier: set<UniqueID>, prev: set<UniqueID>) {
    forall id {:trigger DependsInto(dependencies, id, prev)} | id in tier :: DependsInto(dependencies, id, prev)
  }

  lemma SortedIsClosed(sorted: seq<UniqueID>, dependencies: DependencyMap)
    requires DependenciesFirst(sorted, dependencies)
    ensures forall id | id in Elems(sorted) :: Deps(dependencies, id) <= Elems(sorted)
  {
  }

  lemma AppendTierKeepsOrder(ids: set<UniqueID>, dependencies: DependencyMap, sorted: seq<UniqueID>,
                             tier: seq<UniqueID>)
    requires NoDup(sorted) && DependenciesFirst(sorted, dependencies)
    requires Lists(tier, ReadySet(ids, dependencies, Elems(sorted)))
    ensures NoDup(sorted + tier) && DependenciesFirst(sorted + tier, dependencies)
  {
    ElemsConcat(sorted, tier);
    forall i | 0 <= i < |sorted + tier|
      ensures Deps(dependencies, (sorted + tier)[i]) <= Visited(sorted + tier, i)
    {
      VisitedConcat(sorted, tier, i);
      if i >= |sorted| {
        assert tier[i - |sorted|] in Elems(tier);
      }
    }
  }

  lemma NewTierWaits(ids: set<UniqueID>, dependencies: DependencyMap, done0: set<UniqueID>, tier: set<UniqueID>)
    ensures WaitFor(dependencies, Released(ids, dependencies, done0, done0 + tier), tier)
  {
  }

  lemma TierStep(ids: set<UniqueID>, dependencies: DependencyMap, level: nat, prev: set<UniqueID>,
                 sorted: seq<UniqueID>, inDegrees0: map<UniqueID, int>, tierMap0: map<UniqueID, Tier>,
                 tier: seq<UniqueID>, inDegrees: map<UniqueID, int>, tierMap: map<UniqueID, Tier>,
                 nextTier: seq<UniqueID>)
    requires BetweenTiers(ids, dependencies, level, prev, sorted, inDegrees0, tierMap0, tier) && tier != []
    requires Sorting(ids, dependencies, level + 1, tier, Elems(sorted), tierMap0, |tier|, inDegrees, tierMap, nextTier)
    ensures BetweenTiers(ids, dependencies, level + 1, Elems(tier), sorted + tier, inDegrees, tierMap, nextTier)
  {
    VisitedAll(tier);
    ElemsConcat(sorted, tier);
    SortedIsClosed(sorted, dependencies);
    AppendTierKeepsOrder(ids, dependencies, sorted, tier);
    assert tier[0] in Elems(tier);
    LayerGrows(ids, dependencies, Elems(sorted), Elems(tier), prev, tierMap0, tierMap, level + 1);
    ReleasedIsReady(ids, dependencies, Elems(sorted), Elems(tier));
    NewTierWaits(ids, dependencies, Elems(sorted), Elems(tier));
  }

  /** A first tier without objects changes nothing. */
  lemma EmptyTierStep(ids: set<UniqueID>, dependencies: DependencyMap, inDegrees0: map<UniqueID, int>,
                      tierMap0: map<UniqueID, Tier>,
                      inDegrees: map<UniqueID, int>, tierMap: map<UniqueID, Tier>, nextTier: seq<UniqueID>)
    requires BetweenTiers(ids, dependencies, 0, {}, [], inDegrees0, tierMap0, [])
    requires Sorting(ids, dependencies, 1, [], {}, tierMap0, 0, inDegrees, tierMap, nextTier)
    ensures BetweenTiers(ids, dependencies, 0, {}, [], inDegrees, tierMap, []) && nextTier == []
  {
    var none: set<UniqueID> := {};
    assert Elems<UniqueID>([]) == none && Visited<UniqueID>([], 0) == none && none + none == none;
    assert tierMap == tierMap0;
    assert Released(ids, dependencies, none, none) == none;
    ElemsEmpty(nextTier);
  }

  lemma SortEnds(slice: seq<UniqueID>, dependencies: DependencyMap, level: nat, prev: set<UniqueID>,
                 sorted: seq<UniqueID>, inDegrees: map<UniqueID, int>, tierMap: map<UniqueID, Tier>)
    requires NoDup(slice) && BetweenTiers(Elems(slice), dependencies, level, prev, sorted, inDegrees, tierMap, [])
    ensures |sorted| == |slice| <==> Closed(Elems(slice), dependencies) && Acyclic(Elems(slice), dependencies)
    ensures |sorted| == |slice| ==>
              && multiset(sorted) == multiset(slice) && Elems(sorted) == Elems(slice)
              && DepthsAreLongestChains(Elems(slice), dependencies, tierMap) && DepthsTo(tierMap, level)
  {
    NoDupSize(slice);
    NoDupSize(sorted);
    SubsetSize(Elems(sorted), Elems(slice));
    if |sorted| == |slice| {
      NoDupPermutation(sorted, slice);
      LayersAreDepths(Elems(slice), dependencies, tierMap, level);
    } else {
      ElemsEmpty<UniqueID>([]);
      assert |Elems(sorted)| != |Elems(slice)|;
      StuckMeansUnsortable(Elems(slice), dependencies, Elems(sorted));
    }
  }

  /** Filling in cohorts leaves the depths as they are. */
  lemma CohortsKeepDepths(ids: set<UniqueID>, dependencies: DependencyMap, before: map<UniqueID, Tier>,
                          after: map<UniqueID, Tier>, count: nat)
    requires DepthsAreLongestChains(ids, dependencies, before) && DepthsTo(before, count)
    requires after.Keys == before.Keys && forall id | id in after :: after[id].depth == before[id].depth
    ensures DepthsAreLongestChains(ids, dependencies, after) && DepthsTo(after, count)
  {
    forall t | 1 <= t <= count
      ensures DepthInUse(after.Keys, after, t)
    {
      assert DepthInUse(before.Keys, before, t);
      var id :| id in before && before[id].depth == t;
      assert after[id].depth == t;
    }
  }

  /** What the sort promises about its result. */
  ghost predicate SortedWell(slice: seq<UniqueID>, dependencies: DependencyMap, r: SortResult, tierCount: nat,
                             cohortCount: nat) {
    && multiset(r.sorted) == multiset(slice)
    && DependenciesFirst(r.sorted, dependencies)
    && DepthsAreLongestChains(Elems(slice), dependencies, r.tiers)
    && DepthsTo(r.tiers, tierCount)
    && CohortsAreComponents(Elems(slice), dependencies, r.tiers)
    && NumberedTo(r.tiers, cohortCount)
  }

  /**
   * Sorts objects so that dependencies come first, and assigns each its tier. Fails, as the program
   * does fatally, exactly when a dependency is missing from the slice or the dependencies are cyclic.
   */
  method TopologicalSort(slice: seq<UniqueID>, dependencies: DependencyMap) returns (result: Option<SortResult>)
    requires NoDup(slice)
    ensures result.Some? <==> Closed(Elems(slice), dependencies) && Acyclic(Elems(slice), dependencies)
    ensures result.Some? ==> exists tierCount, cohortCount ::
            SortedWell(slice, dependencies, result.value, tierCount, cohortCount)
  {
    var inDegrees, dependencyIndexes, isDependentOn, queue := CountDependencies(slice, dependencies);
    ghost var ids := Elems(slice);
    var tierMap := map id | id in slice :: Tier(0, 0);
    var sorted: seq<UniqueID> := [];
    var nextTier: seq<UniqueID>;
    var tierCount := 1;
    ghost var level, prev := 0, {};
    assert BetweenTiers(ids, dependencies, 0, {}, [], inDegrees, tierMap, queue) by {
      assert Elems<UniqueID>([]) == {};
    }
    assert Elems<UniqueID>([]) == {};
    ghost var inDegrees0, tierMap0 := inDegrees, tierMap;
    sorted, inDegrees, tierMap, nextTier :=
      SortTier(slice, dependencies, isDependentOn, dependencyIndexes, tierCount, queue, [], inDegrees, tierMap);
    if queue == [] {
      EmptyTierStep(ids, dependencies, inDegrees0, tierMap0, inDegrees, tierMap, nextTier);
    } else {
      TierStep(ids, dependencies, 0, {}, [], inDegrees0, tierMap0, queue, inDegrees, tierMap, nextTier);
      level, prev := 1, Elems(queue);
    }
    while |nextTier| > 0
      invariant BetweenTiers(ids, dependencies, level, prev, sorted, inDegrees, tierMap, nextTier)
      invariant nextTier != [] ==> level == tierCount
      decreases |slice| - |sorted|
    {
      queue := nextTier;
      tierCount := tierCount + 1;
      inDegrees0, tierMap0 := inDegrees, tierMap;
      ghost var before := sorted;
      SortedIsClosed(sorted, dependencies);
      sorted, inDegrees, tierMap, nextTier :=
        SortTier(slice, dependencies, isDependentOn, dependencyIndexes, tierCount, queue, sorted, inDegrees, tierMap);
      TierStep(ids, dependencies, level, prev, before, inDegrees0, tierMap0, queue, inDegrees, tierMap, nextTier);
      level, prev := level + 1, Elems(queue);
      SortedFits(slice, sorted);
    }
    SortEnds(slice, dependencies, level, prev, sorted, inDegrees, tierMap);
    if |slice| != |sorted| {
      return None;
    }
    var tiers, cohortCount := AssignCohorts(slice, dependencies, isDependentOn, tierMap);
    CohortsKeepDepths(ids, dependencies, tierMap, tiers, level);
    result := Some(SortResult(sorted, tiers));
    assert SortedWell(slice, dependencies, result.value, level, cohortCount);
  }

  lemma SortedFits(slice: seq<UniqueID>, sorted: seq<UniqueID>)
    requires NoDup(sorted) && Elems(sorted) <= Elems(slice)
    ensures |sorted| <= |slice|
  {
    NoDupSize(sorted);
    SubsetSize(Elems(sorted), Elems(slice));
    ElemsSize(slice);
  }
}

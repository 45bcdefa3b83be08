/** Cohorts: the connection groups the dependency sort assigns, one per dependency component. */
module Cohorts {
  import opened Collections
  import opened DependencyGraph

  /** First coordinate: depth tier. Second: cohort. Zero means not assigned. */
  datatype Tier = Tier(depth: nat, cohort: nat)

  /** Object ids in the order the sort appended them for each dependency. */
  function DependentsOf(isDependentOn: map<UniqueID, seq<UniqueID>>, id: UniqueID): seq<UniqueID> {
    if id in isDependentOn then isDependentOn[id] else []
  }

  /** isDependentOn is the reverse of the dependency map, over the objects being sorted. */
  ghost predicate Reverses(ids: set<UniqueID>, dependencies: DependencyMap,
                           isDependentOn: map<UniqueID, seq<UniqueID>>) {
    forall d :: Elems(DependentsOf(isDependentOn, d)) == DependentSet(ids, dependencies, d)
  }

  /** Which cohort an object is in, and which objects a cohort has, say the same thing. */
  ghost predicate Inverse(cohort: map<UniqueID, nat>, members: map<nat, set<UniqueID>>) {
    && (forall n, id | n in members && id in members[n] :: id in cohort && cohort[id] == n)
    && (forall id | id in cohort :: cohort[id] in members && id in members[cohort[id]])
  }

  ghost predicate Relabelled(before: map<UniqueID, nat>, after: map<UniqueID, nat>, higher: nat, lower: nat) {
    && after.Keys == before.Keys
    && forall id | id in before :: after[id] == if before[id] == higher then lower else before[id]
  }

  function Min(a: nat, b: nat): nat { if a < b then a else b }

  function Max(a: nat, b: nat): nat { if a < b then b else a }

  function MembersOf(members: map<nat, set<UniqueID>>, n: nat): set<UniqueID> {
    if n in members then members[n] else {}
  }

  lemma RelabelKeepsInverse(cohort: map<UniqueID, nat>, members: map<nat, set<UniqueID>>,
                            cohort': map<UniqueID, nat>, members': map<nat, set<UniqueID>>, higher: nat, lower: nat)
    requires Inverse(cohort, members) && Relabelled(cohort, cohort', higher, lower) && lower != higher
    requires members'.Keys == members.Keys + {lower} - {higher}
    requires members'[lower] == MembersOf(members, lower) + MembersOf(members, higher)
    requires forall n | n in members' && n != lower :: members'[n] == members[n]
    ensures Inverse(cohort', members')
  {
    forall n, id | n in members' && id in members'[n]
      ensures id in cohort' && cohort'[id] == n
    {
      if n == lower {
        assert id in MembersOf(members, lower) || id in MembersOf(members, higher);
      } else {
        assert id in members[n];
      }
    }
    forall id | id in cohort'
      ensures cohort'[id] in members' && id in members'[cohort'[id]]
    {
      assert cohort[id] in members && id in members[cohort[id]];
    }
  }

  /** The first n objects of the slice are alone in cohorts 1..n. */
  ghost predicate AloneTo(slice: seq<UniqueID>, n: nat, cohort: map<UniqueID, nat>, members: map<nat, set<UniqueID>>)
    requires n <= |slice|
  {
    && cohort.Keys == Visited(slice, n)
    && (forall k | 0 <= k < n :: cohort[slice[k]] == k + 1)
    && (forall c :: c in members <==> 1 <= c <= n)
    && forall c | c in members :: members[c] == {slice[c - 1]}
  }

  lemma AloneOneMore(slice: seq<UniqueID>, n: nat, cohort: map<UniqueID, nat>, members: map<nat, set<UniqueID>>)
    requires n < |slice| && NoDup(slice) && AloneTo(slice, n, cohort, members)
    ensures AloneTo(slice, n + 1, cohort[slice[n] := n + 1], members[n + 1 := {slice[n]}])
  {
  }

  lemma AloneIsInverse(slice: seq<UniqueID>, cohort: map<UniqueID, nat>, members: map<nat, set<UniqueID>>)
    requires NoDup(slice) && AloneTo(slice, |slice|, cohort, members)
    ensures Inverse(cohort, members) && cohort.Keys == Elems(slice)
    ensures forall n | n in members :: members[n] != {}
  {
  }

  /** The two maps that mergeCohorts relabels in place. */
  class CohortTable {
    var objectToCohort: map<UniqueID, nat>
    var members: map<nat, set<UniqueID>>

    ghost predicate Valid()
      reads this
    {
      Inverse(objectToCohort, members)
    }

    ghost predicate Nonempty()
      reads this
    {
      forall n | n in members :: members[n] != {}
    }

    /** Each object alone in a cohort, numbered from 1 in slice order. */
    constructor (slice: seq<UniqueID>)
      requires NoDup(slice)
      ensures Valid() && Nonempty()
      ensures objectToCohort.Keys == Elems(slice)
      ensures forall i | 0 <= i < |slice| :: objectToCohort[slice[i]] == i + 1
      ensures forall n | n in members :: n >= 1
    {
      objectToCohort := map[];
      members := map[];
      new;
      var i := 0;
      while i < |slice|
        invariant 0 <= i <= |slice|
        invariant AloneTo(slice, i, objectToCohort, members)
      {
        AloneOneMore(slice, i, objectToCohort, members);
        objectToCohort := objectToCohort[slice[i] := i + 1];
        members := members[i + 1 := {slice[i]}];
        i := i + 1;
      }
      AloneIsInverse(slice, objectToCohort, members);
    }

    /** The loop of mergeCohorts: objects are visited in any order. */
    method MoveObjects(cohortToMerge: set<UniqueID>, lowerCohort: nat)
      requires lowerCohort in members && cohortToMerge <= objectToCohort.Keys
      modifies this
      ensures members == old(members)[lowerCohort := old(members)[lowerCohort] + cohortToMerge]
      ensures objectToCohort.Keys == old(objectToCohort).Keys
      ensures forall id | id in objectToCohort ::
                objectToCohort[id] == if id in cohortToMerge then lowerCohort else old(objectToCohort)[id]
    {
      var rest := cohortToMerge;
      while rest != {}
        invariant rest <= cohortToMerge
        invariant members.Keys == old(members).Keys
        invariant members[lowerCohort] == old(members)[lowerCohort] + (cohortToMerge - rest)
        invariant forall n | n in members && n != lowerCohort :: members[n] == old(members)[n]
        invariant objectToCohort.Keys == old(objectToCohort).Keys
        invariant forall id | id in objectToCohort ::
          objectToCohort[id] == if id in cohortToMerge - rest then lowerCohort else old(objectToCohort)[id]
      {
        var moved :| moved in rest;
        objectToCohort := objectToCohort[moved := lowerCohort];
        members := members[lowerCohort := members[lowerCohort] + {moved}];
        rest := rest - {moved};
      }
      assert cohortToMerge - rest == cohortToMerge;
    }

    /** Moves every object of the higher-numbered cohort into the lower-numbered one. */
    method MergeCohorts(firstCohort: nat, secondCohort: nat) returns (lowerCohort: nat)
      requires Valid() && firstCohort != secondCohort
      modifies this
      ensures Valid() && lowerCohort == Min(firstCohort, secondCohort)
      ensures Relabelled(old(objectToCohort), objectToCohort, Max(firstCohort, secondCohort), lowerCohort)
      ensures members.Keys == old(members.Keys) + {lowerCohort} - {Max(firstCohort, secondCohort)}
      ensures old(Nonempty()) && Max(firstCohort, secondCohort) in old(members) ==> Nonempty()
    {
      var higherCohort;
      if firstCohort < secondCohort {
        lowerCohort, higherCohort := firstCohort, secondCohort;
      } else {
        lowerCohort, higherCohort := secondCohort, firstCohort;
      }
      if lowerCohort !in members {
        members := members[lowerCohort := {}];
      }
      if higherCohort in members {
        MoveObjects(members[higherCohort], lowerCohort);
        members := members - {higherCohort};
      }
      RelabelKeepsInverse(old(objectToCohort), old(members), objectToCohort, members, higherCohort, lowerCohort);
    }
  }

  /** Objects in one cohort are in one component. */
  ghost predicate Sound(ids: set<UniqueID>, dependencies: DependencyMap, cohort: map<UniqueID, nat>) {
    && cohort.Keys == ids
    && forall a, b | a in ids && b in ids && cohort[a] == cohort[b] :: Connected(ids, dependencies, a, b)
  }

  /** id has the same cohort as each of the objects in others. */
  ghost predicate Joined(cohort: map<UniqueID, nat>, id: UniqueID, others: set<UniqueID>) {
    id in cohort && forall p | p in others :: p in cohort && cohort[p] == cohort[id]
  }

  /** Merging the cohorts of two linked objects keeps every cohort inside one component. */
  lemma MergeKeepsSound(ids: set<UniqueID>, dependencies: DependencyMap,
                        before: map<UniqueID, nat>, after: map<UniqueID, nat>, higher: nat, lower: nat,
                        x: UniqueID, y: UniqueID)
    requires Sound(ids, dependencies, before) && Relabelled(before, after, higher, lower)
    requires x in ids && y in ids && Linked(dependencies, x, y)
    requires before[x] == lower && before[y] == higher
    ensures Sound(ids, dependencies, after)
  {
    ConnectedLink(ids, dependencies, x, y);
    ConnectedSym(ids, dependencies, x, y);
    forall a, b | a in ids && b in ids && after[a] == after[b]
      ensures Connected(ids, dependencies, a, b)
    {
      if before[a] != before[b] {
        if before[a] == lower {
          ConnectedTrans(ids, dependencies, a, x, y);
          ConnectedTrans(ids, dependencies, a, y, b);
        } else {
          ConnectedTrans(ids, dependencies, a, y, x);
          ConnectedTrans(ids, dependencies, a, x, b);
        }
      }
    }
  }

  /** The cohort numbers of a table in ascending order. */
  method SortedNumbers(numbers: set<nat>) returns (sorted: seq<nat>)
    ensures Elems(sorted) == numbers
    ensures forall i, j | 0 <= i < j < |sorted| :: sorted[i] < sorted[j]
  {
    sorted := [];
    var rest := numbers;
    while rest != {}
      invariant rest <= numbers && Elems(sorted) == numbers - rest
      invariant forall i, j | 0 <= i < j < |sorted| :: sorted[i] < sorted[j]
      invariant forall i, m | 0 <= i < |sorted| && m in rest :: sorted[i] < m
    {
      var least := Least(rest);
      assert Elems(sorted + [least]) == Elems(sorted) + {least};
      sorted := sorted + [least];
      rest := rest - {least};
    }
  }

  method Least(numbers: set<nat>) returns (least: nat)
    requires numbers != {}
    ensures least in numbers && forall n | n in numbers :: least <= n
  {
    least :| least in numbers;
    var rest := numbers - {least};
    while rest != {}
      invariant rest <= numbers && least in numbers
      invariant forall n | n in numbers && n !in rest :: least <= n
    {
      var n :| n in rest;
      if n < least {
        least := n;
      }
      rest := rest - {n};
    }
  }

  /** Objects that shared a cohort still share one. */
  ghost predicate Coarser(before: map<UniqueID, nat>, after: map<UniqueID, nat>) {
    && before.Keys == after.Keys
    && forall a, b | a in before && b in before && before[a] == before[b] :: after[a] == after[b]
  }

  ghost predicate Consistent(table: CohortTable, ids: set<UniqueID>, dependencies: DependencyMap)
    reads table
  {
    table.Valid() && table.Nonempty() && Sound(ids, dependencies, table.objectToCohort)
  }

  /** One step of either inner loop of assignCohorts. */
  method JoinOne(table: CohortTable, ghost ids: set<UniqueID>, ghost dependencies: DependencyMap,
                 ghost id: UniqueID, other: UniqueID, currCohort: nat) returns (cohort: nat)
    requires Consistent(table, ids, dependencies)
    requires id in ids && other in ids && Linked(dependencies, id, other)
    requires currCohort == table.objectToCohort[id]
    modifies table
    ensures Consistent(table, ids, dependencies)
    ensures cohort == table.objectToCohort[id] == table.objectToCohort[other]
    ensures Coarser(old(table.objectToCohort), table.objectToCohort)
    ensures table.members.Keys <= old(table.members.Keys)
  {
    cohort := currCohort;
    var otherCohort := table.objectToCohort[other];
    if otherCohort != currCohort {
      ghost var before := table.objectToCohort;
      cohort := table.MergeCohorts(currCohort, otherCohort);
      if currCohort < otherCohort {
        MergeKeepsSound(ids, dependencies, before, table.objectToCohort, otherCohort, currCohort, id, other);
      } else {
        MergeKeepsSound(ids, dependencies, before, table.objectToCohort, currCohort, otherCohort, other, id);
      }
    }
  }

  /** Merges the cohort of id with the cohort of every object in others, in any order. */
  method JoinAll(table: CohortTable, ghost ids: set<UniqueID>, ghost dependencies: DependencyMap,
                 id: UniqueID, others: set<UniqueID>, cohort: nat) returns (currCohort: nat)
    requires Consistent(table, ids, dependencies)
    requires id in ids && others <= ids && cohort == table.objectToCohort[id]
    requires forall p | p in others :: Linked(dependencies, id, p)
    modifies table
    ensures Consistent(table, ids, dependencies)
    ensures currCohort == table.objectToCohort[id] && Joined(table.objectToCohort, id, others)
    ensures Coarser(old(table.objectToCohort), table.objectToCohort)
    ensures table.members.Keys <= old(table.members.Keys)
  {
    currCohort := cohort;
    var rest := others;
    while rest != {}
      invariant rest <= others
      invariant Consistent(table, ids, dependencies)
      invariant currCohort == table.objectToCohort[id] && Joined(table.objectToCohort, id, others - rest)
      invariant Coarser(old(table.objectToCohort), table.objectToCohort)
      invariant table.members.Keys <= old(table.members.Keys)
    {
      var other :| other in rest;
      currCohort := JoinOne(table, ids, dependencies, id, other, currCohort);
      rest := rest - {other};
    }
  }

  /** The inner loop over the objects that depend on id. */
  method JoinChildren(table: CohortTable, ghost ids: set<UniqueID>, ghost dependencies: DependencyMap,
                      id: UniqueID, children: seq<UniqueID>, cohort: nat) returns (currCohort: nat)
    requires Consistent(table, ids, dependencies)
    requires id in ids && Elems(children) == DependentSet(ids, dependencies, id) && cohort == table.objectToCohort[id]
    modifies table
    ensures Consistent(table, ids, dependencies)
    ensures Coarser(old(table.objectToCohort), table.objectToCohort)
    ensures table.members.Keys <= old(table.members.Keys)
  {
    currCohort := cohort;
    var c := 0;
    while c < |children|
      invariant 0 <= c <= |children|
      invariant Consistent(table, ids, dependencies)
      invariant currCohort == table.objectToCohort[id]
      invariant Coarser(old(table.objectToCohort), table.objectToCohort)
      invariant table.members.Keys <= old(table.members.Keys)
    {
      assert children[c] in Elems(children);
      currCohort := JoinOne(table, ids, dependencies, id, children[c], currCohort);
      c := c + 1;
    }
  }

  lemma CoarserKeepsJoined(before: map<UniqueID, nat>, after: map<UniqueID, nat>, id: UniqueID, others: set<UniqueID>)
    requires Coarser(before, after) && Joined(before, id, others)
    ensures Joined(after, id, others)
  {
  }

  /** If every object shares its cohort with its dependencies, cohorts are exactly components. */
  lemma JoinedCohortsAreComponents(ids: set<UniqueID>, dependencies: DependencyMap, cohort: map<UniqueID, nat>)
    requires Sound(ids, dependencies, cohort)
    requires forall id | id in ids :: Joined(cohort, id, Deps(dependencies, id))
    ensures forall a, b | a in ids && b in ids :: cohort[a] == cohort[b] <==> Connected(ids, dependencies, a, b)
  {
    forall a, b | a in ids && b in ids && Linked(dependencies, a, b)
      ensures cohort[a] == cohort[b]
    {
      assert Joined(cohort, a, Deps(dependencies, a)) && Joined(cohort, b, Deps(dependencies, b));
    }
    forall a, b | a in ids && b in ids && Connected(ids, dependencies, a, b)
      ensures cohort[a] == cohort[b]
    {
      var p :| IsPath(ids, dependencies, p) && p[0] == a && p[|p| - 1] == b;
      CohortsFollowPaths(ids, dependencies, cohort, p);
    }
  }

  /** Rank-preserving relabelling: the i-th smallest number, 0-based, becomes i + 1, once processed. */
  ghost predicate RenumberedUpTo(before: map<UniqueID, nat>, after: map<UniqueID, nat>, numbers: seq<nat>, i: nat) {
    && after.Keys == before.Keys
    && forall id, k | id in before && 0 <= k < |numbers| && before[id] == numbers[k] ::
         after[id] == if k < i then k + 1 else numbers[k]
  }

  lemma {:induction false} SortedAtLeast(numbers: seq<nat>, i: nat)
    requires i < |numbers| && numbers[0] >= 1
    requires forall j, k | 0 <= j < k < |numbers| :: numbers[j] < numbers[k]
    ensures numbers[i] >= i + 1
  {
    if i > 0 {
      SortedAtLeast(numbers, i - 1);
      assert numbers[i - 1] < numbers[i];
    }
  }

  /** The cohorts from position i on keep their number; the earlier ones are 1..i. */
  ghost predicate LiveNumbers(members: map<nat, set<UniqueID>>, numbers: seq<nat>, i: nat)
    requires i <= |numbers|
  {
    forall n :: n in members <==> 1 <= n <= i || n in numbers[i..]
  }

  lemma RenumberStep(before: map<UniqueID, nat>, now: map<UniqueID, nat>, next: map<UniqueID, nat>, numbers: seq<nat>,
                     i: nat)
    requires i < |numbers| && forall j, k | 0 <= j < k < |numbers| :: numbers[j] < numbers[k]
    requires numbers[i] > i + 1
    requires RenumberedUpTo(before, now, numbers, i) && Relabelled(now, next, numbers[i], i + 1)
    ensures RenumberedUpTo(before, next, numbers, i + 1)
  {
  }

  lemma LiveStep(numbers: seq<nat>, i: nat, n: nat)
    requires i < |numbers| && numbers[0] >= 1 && forall j, k | 0 <= j < k < |numbers| :: numbers[j] < numbers[k]
    ensures n in numbers[i..] <==> n == numbers[i] || n in numbers[i + 1..]
    ensures n in numbers[i + 1..] ==> n > i + 1 && n != numbers[i]
    ensures numbers[i] >= i + 1
  {
    SortedAtLeast(numbers, i);
    assert numbers[i..] == [numbers[i]] + numbers[i + 1..];
    if n in numbers[i + 1..] {
      var k :| 0 <= k < |numbers| - i - 1 && numbers[i + 1..][k] == n;
      assert numbers[i] < numbers[i + 1 + k] == n;
    }
  }

  /**
   * The final renumbering of assignCohorts. The i-th number, counting from 0, is at least i + 1, so
   * the target of a merge is never another live cohort and no two cohorts are merged.
   */
  method Renumber(table: CohortTable) returns (count: nat)
    requires table.Valid() && table.Nonempty() && 0 !in table.members
    modifies table
    ensures table.Valid() && table.Nonempty()
    ensures count == |old(table.members)|
    ensures forall n :: n in table.members <==> 1 <= n <= count
    ensures SamePartition(old(table.objectToCohort), table.objectToCohort)
  {
    ghost var before := table.objectToCohort;
    var cohorts := SortedNumbers(table.members.Keys);
    RenumberStart(before, table.members, cohorts);
    count := |cohorts|;
    var i := 0;
    while i < |cohorts|
      invariant 0 <= i <= |cohorts|
      invariant table.Valid() && table.Nonempty()
      invariant LiveNumbers(table.members, cohorts, i)
      invariant RenumberedUpTo(before, table.objectToCohort, cohorts, i)
    {
      RenumberOne(table, before, cohorts, i);
      i := i + 1;
    }
    RenumberedSamePartition(before, table.objectToCohort, cohorts);
  }

  lemma RenumberStart(before: map<UniqueID, nat>, members: map<nat, set<UniqueID>>, numbers: seq<nat>)
    requires Inverse(before, members) && 0 !in members
    requires Elems(numbers) == members.Keys && forall i, j | 0 <= i < j < |numbers| :: numbers[i] < numbers[j]
    ensures |numbers| == |members|
    ensures LiveNumbers(members, numbers, 0) && RenumberedUpTo(before, before, numbers, 0)
    ensures forall id | id in before :: before[id] in numbers
    ensures numbers != [] ==> numbers[0] >= 1
  {
    NoDupSize(numbers);
    assert numbers[0..] == numbers;
    assert forall n :: n in Elems(numbers) <==> n in numbers;
    if numbers != [] {
      assert numbers[0] in Elems(numbers);
    }
  }

  method RenumberOne(table: CohortTable, ghost before: map<UniqueID, nat>, cohorts: seq<nat>, i: nat)
    requires i < |cohorts| && cohorts[0] >= 1 && forall j, k | 0 <= j < k < |cohorts| :: cohorts[j] < cohorts[k]
    requires table.Valid() && table.Nonempty()
    requires LiveNumbers(table.members, cohorts, i) && RenumberedUpTo(before, table.objectToCohort, cohorts, i)
    modifies table
    ensures table.Valid() && table.Nonempty()
    ensures LiveNumbers(table.members, cohorts, i + 1) && RenumberedUpTo(before, table.objectToCohort, cohorts, i + 1)
  {
    var expectedCohort := i + 1;
    var actualCohort := cohorts[i];
    ghost var now := table.objectToCohort;
    LiveStep(cohorts, i, actualCohort);
    ghost var live := table.members;
    if expectedCohort != actualCohort {
      var _ := table.MergeCohorts(expectedCohort, actualCohort);
      RenumberStep(before, now, table.objectToCohort, cohorts, i);
    }
    forall n
      ensures n in table.members <==> 1 <= n <= i + 1 || n in cohorts[i + 1..]
    {
      if n >= 0 {
        LiveStep(cohorts, i, n);
      }
    }
  }

  ghost predicate SamePartition(before: map<UniqueID, nat>, after: map<UniqueID, nat>) {
    && before.Keys == after.Keys
    && forall a, b | a in before && b in before :: after[a] == after[b] <==> before[a] == before[b]
  }

  lemma RenumberedSamePartition(before: map<UniqueID, nat>, after: map<UniqueID, nat>, numbers: seq<nat>)
    requires forall id | id in before :: before[id] in numbers
    requires RenumberedUpTo(before, after, numbers, |numbers|)
    ensures SamePartition(before, after)
  {
  }

  /** The numbers in use are exactly 1..count. */
  ghost predicate NumberedTo(tiers: map<UniqueID, Tier>, count: nat) {
    && (forall id | id in tiers :: 1 <= tiers[id].cohort <= count)
    && (forall n | 1 <= n <= count :: CohortInUse(tiers, n))
  }

  ghost predicate CohortInUse(tiers: map<UniqueID, Tier>, n: nat) {
    exists id :: id in tiers && tiers[id].cohort == n
  }

  /** Two objects have one cohort exactly when they are in one component. */
  ghost predicate CohortsAreComponents(ids: set<UniqueID>, dependencies: DependencyMap, tiers: map<UniqueID, Tier>) {
    && ids <= tiers.Keys
    && forall a, b | a in ids && b in ids :: tiers[a].cohort == tiers[b].cohort <==> Connected(ids, dependencies, a, b)
  }

  /** The first n objects share their cohorts with their dependencies. */
  ghost predicate JoinedTo(cohort: map<UniqueID, nat>, slice: seq<UniqueID>, dependencies: DependencyMap, n: nat)
    requires n <= |slice|
  {
    forall j | 0 <= j < n :: Joined(cohort, slice[j], Deps(dependencies, slice[j]))
  }

  lemma JoinedOneMore(before: map<UniqueID, nat>, after: map<UniqueID, nat>, slice: seq<UniqueID>,
                      dependencies: DependencyMap, n: nat)
    requires n < |slice| && JoinedTo(before, slice, dependencies, n) && Coarser(before, after)
    requires Joined(after, slice[n], Deps(dependencies, slice[n]))
    ensures JoinedTo(after, slice, dependencies, n + 1)
  {
  }

  /** Both inner loops for one object: it joins its dependencies and the objects that depend on it. */
  method JoinObject(table: CohortTable, ghost ids: set<UniqueID>, dependencies: DependencyMap,
                    isDependentOn: map<UniqueID, seq<UniqueID>>, id: UniqueID)
    requires Consistent(table, ids, dependencies) && Closed(ids, dependencies) && id in ids
    requires Reverses(ids, dependencies, isDependentOn)
    modifies table
    ensures Consistent(table, ids, dependencies)
    ensures Coarser(old(table.objectToCohort), table.objectToCohort)
    ensures Joined(table.objectToCohort, id, Deps(dependencies, id))
    ensures table.members.Keys <= old(table.members.Keys)
  {
    var currCohort := table.objectToCohort[id];
    currCohort := JoinAll(table, ids, dependencies, id, Deps(dependencies, id), currCohort);
    ghost var joined := table.objectToCohort;
    currCohort := JoinChildren(table, ids, dependencies, id, DependentsOf(isDependentOn, id), currCohort);
    CoarserKeepsJoined(joined, table.objectToCohort, id, Deps(dependencies, id));
  }

  method AssignCohorts(slice: seq<UniqueID>, dependencies: DependencyMap,
                       isDependentOn: map<UniqueID, seq<UniqueID>>, tierMap: map<UniqueID, Tier>)
    returns (tiers: map<UniqueID, Tier>, ghost count: nat)
    requires NoDup(slice) && Closed(Elems(slice), dependencies)
    requires Reverses(Elems(slice), dependencies, isDependentOn)
    requires tierMap.Keys == Elems(slice)
    ensures tiers.Keys == tierMap.Keys
    ensures forall id | id in tiers :: tiers[id].depth == tierMap[id].depth
    ensures CohortsAreComponents(Elems(slice), dependencies, tiers)
    ensures NumberedTo(tiers, count)
  {
    ghost var ids := Elems(slice);
    var table := new CohortTable(slice);
    StartIsSound(slice, dependencies, table.objectToCohort);
    var i := 0;
    while i < |slice|
      invariant 0 <= i <= |slice|
      invariant fresh(table) && Consistent(table, ids, dependencies) && 0 !in table.members
      invariant JoinedTo(table.objectToCohort, slice, dependencies, i)
    {
      ghost var before := table.objectToCohort;
      JoinObject(table, ids, dependencies, isDependentOn, slice[i]);
      JoinedOneMore(before, table.objectToCohort, slice, dependencies, i);
      i := i + 1;
    }
    assert forall id | id in ids :: Joined(table.objectToCohort, id, Deps(dependencies, id));
    tiers, count := NumberTiers(table, ids, dependencies, tierMap);
  }

  /** Renumbering the finished cohorts and writing them into the tiers. */
  method NumberTiers(table: CohortTable, ghost ids: set<UniqueID>, ghost dependencies: DependencyMap,
                     tierMap: map<UniqueID, Tier>)
    returns (tiers: map<UniqueID, Tier>, ghost count: nat)
    requires Consistent(table, ids, dependencies) && 0 !in table.members
    requires forall id | id in ids :: Joined(table.objectToCohort, id, Deps(dependencies, id))
    requires tierMap.Keys == ids
    modifies table
    ensures tiers.Keys == tierMap.Keys
    ensures forall id | id in tiers :: tiers[id].depth == tierMap[id].depth
    ensures CohortsAreComponents(ids, dependencies, tiers)
    ensures NumberedTo(tiers, count)
  {
    JoinedCohortsAreComponents(ids, dependencies, table.objectToCohort);
    count := Renumber(table);
    tiers := map id | id in tierMap :: tierMap[id].(cohort := table.objectToCohort[id]);
    NumberedByTable(ids, table.objectToCohort, table.members, tiers, count);
  }

  lemma NumberedByTable(ids: set<UniqueID>, cohort: map<UniqueID, nat>, members: map<nat, set<UniqueID>>,
                        tiers: map<UniqueID, Tier>, count: nat)
    requires Inverse(cohort, members) && forall n | n in members :: members[n] != {}
    requires forall n :: n in members <==> 1 <= n <= count
    requires tiers.Keys == cohort.Keys == ids
    requires forall id | id in ids :: tiers[id].cohort == cohort[id]
    ensures NumberedTo(tiers, count)
  {
    forall n | 1 <= n <= count
      ensures CohortInUse(tiers, n)
    {
      assert n in members;
      var id :| id in members[n];
      assert id in tiers && tiers[id].cohort == n;
    }
  }

  lemma StartIsSound(slice: seq<UniqueID>, dependencies: DependencyMap, cohort: map<UniqueID, nat>)
    requires NoDup(slice) && cohort.Keys == Elems(slice)
    requires forall i | 0 <= i < |slice| :: cohort[slice[i]] == i + 1
    ensures Sound(Elems(slice), dependencies, cohort)
  {
    forall a, b | a in Elems(slice) && b in Elems(slice) && cohort[a] == cohort[b]
      ensures Connected(Elems(slice), dependencies, a, b)
    {
      ConnectedRefl(Elems(slice), dependencies, a);
    }
  }
}

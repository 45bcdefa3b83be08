/** Expanding a list of tables by everything that depends on them, or that they depend on. */
module TableDepend {
  import opened Collections

  /** The tables one query step finds for each table. */
  type Relation = map<nat, set<nat>>

  function Related(r: Relation, oid: nat): set<nat> {
    if oid in r then r[oid] else {}
  }

  /** What a query for some tables finds. */
  ghost function Found(r: Relation, oids: seq<nat>): set<nat> {
    set x, y | x in oids && y in Related(r, x) :: y
  }

  /** A walk goes from each table to one related to it. */
  ghost predicate IsWalk(r: Relation, walk: seq<nat>) {
    forall i, j | 0 <= i < j < |walk| && j == i + 1 :: walk[j] in Related(r, walk[i])
  }

  ghost predicate WalkTo(r: Relation, start: set<nat>, walk: seq<nat>, oid: nat) {
    walk != [] && walk[0] in start && walk[|walk| - 1] == oid && IsWalk(r, walk)
  }

  /** The table can be reached from a table of the start set. */
  ghost predicate Reachable(r: Relation, start: set<nat>, oid: nat) {
    exists walk :: WalkTo(r, start, walk, oid)
  }

  lemma StartReachable(r: Relation, start: set<nat>, oid: nat)
    requires oid in start
    ensures Reachable(r, start, oid)
  {
    assert WalkTo(r, start, [oid], oid);
  }

  lemma StepReachable(r: Relation, start: set<nat>, oid: nat, next: nat)
    requires Reachable(r, start, oid) && next in Related(r, oid)
    ensures Reachable(r, start, next)
  {
    var walk :| WalkTo(r, start, walk, oid);
    assert WalkTo(r, start, walk + [next], next);
  }

  ghost predicate ClosedUnder(r: Relation, oids: set<nat>) {
    forall x, y | x in oids && y in Related(r, x) :: y in oids
  }

  /** A walk cannot leave a closed set. */
  lemma {:induction false} WalkStaysInside(r: Relation, start: set<nat>, closed: set<nat>, walk: seq<nat>, i: nat)
    requires start <= closed && ClosedUnder(r, closed) && walk != [] && walk[0] in start && IsWalk(r, walk) &&
             i < |walk|
    ensures walk[i] in closed
  {
    if i > 0 {
      WalkStaysInside(r, start, closed, walk, i - 1);
    }
  }

  /** Asking the database once; the rows come in any order and may repeat. */
  method Select(r: Relation, loopOids: seq<nat>) returns (depOids: seq<nat>)
    ensures Elems(depOids) == Found(r, loopOids)
  {
    depOids := [];
    for i := 0 to |loopOids|
      invariant Elems(depOids) == Found(r, loopOids[..i])
    {
      assert loopOids[..i + 1] == loopOids[..i] + [loopOids[i]];
      var rows := SetToSeq(Related(r, loopOids[i]));
      ElemsConcat(depOids, rows);
      depOids := depOids + rows;
    }
    assert loopOids[..|loopOids|] == loopOids;
  }

  method SetToSeq(oids: set<nat>) returns (s: seq<nat>)
    ensures Lists(s, oids)
  {
    s := [];
    var left := oids;
    while left != {}
      invariant left <= oids && Lists(s, oids - left)
      decreases left
    {
      var x :| x in left;
      ListOneMore(s, oids - left, x);
      assert oids - left + {x} == oids - (left - {x});
      s, left := s + [x], left - {x};
    }
    assert oids - left == oids;
  }

  /** Everything the loop can ever find. */
  ghost function Universe(r: Relation, start: set<nat>): set<nat> {
    start + set x, y | x in r && y in r[x] :: y
  }

  lemma FoundInUniverse(r: Relation, start: set<nat>, oids: seq<nat>)
    ensures Found(r, oids) <= Universe(r, start)
  {
  }

  /** One round of the loop: query, and keep what was not captured before. */
  method Expand(r: Relation, loopOids: seq<nat>, expanded: set<nat>)
    returns (loopOids': seq<nat>, expanded': set<nat>, foundDeps: bool)
    requires expanded == Elems(loopOids)
    ensures expanded' == Elems(loopOids') == expanded + Found(r, loopOids)
    ensures foundDeps <==> expanded' != expanded
  {
    foundDeps, loopOids', expanded' := false, loopOids, expanded;
    var depOids := Select(r, loopOids);
    for i := 0 to |depOids|
      invariant expanded' == Elems(loopOids') == expanded + Visited(depOids, i)
      invariant foundDeps <==> expanded' != expanded
    {
      VisitOne(depOids, i);
      if depOids[i] !in expanded' {
        ElemsConcat(loopOids', [depOids[i]]);
        foundDeps := true;
        loopOids' := loopOids' + [depOids[i]];
        expanded' := expanded' + {depOids[i]};
      }
    }
    VisitedAll(depOids);
  }

  method RecurseTableDepend(includeOids: seq<nat>, r: Relation) returns (expandedOids: seq<nat>)
    ensures NoDup(expandedOids)
    ensures forall oid :: oid in expandedOids <==> Reachable(r, Elems(includeOids), oid)
    ensures IsSmallestClosed(r, includeOids, expandedOids)
  {
    ghost var start := Elems(includeOids);
    var expanded := Elems(includeOids);
    var foundDeps := true;
    var loopOids := includeOids;
    StartCaptured(r, start);
    while foundDeps
      invariant expanded == Elems(loopOids) && Captured(r, start, expanded)
      invariant !foundDeps ==> ClosedUnder(r, expanded)
      decreases Universe(r, start) - expanded, foundDeps
    {
      CapturesMore(r, start, loopOids);
      loopOids, expanded, foundDeps := Expand(r, loopOids, expanded);
    }
    ClosedIsAll(r, start, expanded);
    expandedOids := SetToSeq(expanded);
    CapturedIsSmallest(r, includeOids, expandedOids);
    forall oid
      ensures oid in expandedOids <==> oid in expanded
    {
      assert oid in Elems(expandedOids) <==> oid in expandedOids;
    }
  }

  /** A set of tables contains everything that the relation gives for its members. */
  ghost predicate HoldsAllOf(r: Relation, oids: set<nat>) {
    forall x | x in oids && x in r :: r[x] <= oids
  }

  /** The result has the start and all that the relation gives, and is inside every set that has. */
  ghost predicate IsSmallestClosed(r: Relation, start: seq<nat>, oids: seq<nat>) {
    && Elems(start) <= Elems(oids) && HoldsAllOf(r, Elems(oids))
    && forall s: set<nat> | Elems(start) <= s && HoldsAllOf(r, s) :: Elems(oids) <= s
  }

  lemma CapturedIsSmallest(r: Relation, start: seq<nat>, oids: seq<nat>)
    requires Captured(r, Elems(start), Elems(oids)) && ClosedUnder(r, Elems(oids))
    ensures IsSmallestClosed(r, start, oids)
  {
    forall x, y | x in Elems(oids) && x in r && y in r[x]
      ensures y in Elems(oids)
    {
      assert y in Related(r, x);
    }
    forall s: set<nat> | Elems(start) <= s && HoldsAllOf(r, s)
      ensures Elems(oids) <= s
    {
      forall oid | oid in Elems(oids)
        ensures oid in s
      {
        var walk :| WalkTo(r, Elems(start), walk, oid);
        WalkStaysInside(r, Elems(start), s, walk, |walk| - 1);
      }
    }
  }

  /** What has been captured contains the start and can be reached from it. */
  ghost predicate Captured(r: Relation, start: set<nat>, expanded: set<nat>) {
    start <= expanded <= Universe(r, start) && forall oid | oid in expanded :: Reachable(r, start, oid)
  }

  lemma StartCaptured(r: Relation, start: set<nat>)
    ensures Captured(r, start, start)
  {
    forall oid | oid in start
      ensures Reachable(r, start, oid)
    {
      StartReachable(r, start, oid);
    }
  }

  lemma CapturesMore(r: Relation, start: set<nat>, oids: seq<nat>)
    requires Captured(r, start, Elems(oids))
    ensures Captured(r, start, Elems(oids) + Found(r, oids))
    ensures Found(r, oids) <= Elems(oids) ==> ClosedUnder(r, Elems(oids))
  {
    FoundInUniverse(r, start, oids);
    FoundAreReachable(r, start, oids);
  }

  lemma ClosedIsAll(r: Relation, start: set<nat>, expanded: set<nat>)
    requires Captured(r, start, expanded) && ClosedUnder(r, expanded)
    ensures forall oid :: oid in expanded <==> Reachable(r, start, oid)
  {
    forall oid | Reachable(r, start, oid)
      ensures oid in expanded
    {
      var walk :| WalkTo(r, start, walk, oid);
      WalkStaysInside(r, start, expanded, walk, |walk| - 1);
    }
  }

  lemma FoundAreReachable(r: Relation, start: set<nat>, oids: seq<nat>)
    requires forall oid | oid in Elems(oids) :: Reachable(r, start, oid)
    ensures forall oid | oid in Found(r, oids) :: Reachable(r, start, oid)
    ensures Found(r, oids) <= Elems(oids) ==> ClosedUnder(r, Elems(oids))
  {
    forall y | y in Found(r, oids)
      ensures Reachable(r, start, y)
    {
      var x :| x in oids && y in Related(r, x);
      StepReachable(r, start, x, y);
    }
    if Found(r, oids) <= Elems(oids) {
      forall x, y | x in Elems(oids) && y in Related(r, x)
        ensures y in Elems(oids)
      {
        assert y in Found(r, oids);
      }
    }
  }
}

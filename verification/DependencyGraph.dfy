/** The dependency relation between backed-up objects, and what depth and connection mean in it. */
module DependencyGraph {
  import opened Collections

  /** The identity of a catalog object; both parts are unsigned 32-bit in the program. */
  datatype UniqueID = UniqueID(classID: nat, oid: nat)

  /** For each object, the objects it depends on. */
  type DependencyMap = map<UniqueID, set<UniqueID>>

  function Deps(dependencies: DependencyMap, id: UniqueID): set<UniqueID> {
    if id in dependencies then dependencies[id] else {}
  }

  /** The objects of ids that depend directly on d. */
  ghost function DependentSet(ids: set<UniqueID>, dependencies: DependencyMap, d: UniqueID): set<UniqueID> {
    set id | id in ids && d in Deps(dependencies, id)
  }

  ghost predicate Closed(ids: set<UniqueID>, dependencies: DependencyMap) {
    forall id | id in ids :: Deps(dependencies, id) <= ids
  }

  /** p walks from an object to one of its dependencies, to one of its dependencies, and so on. */
  ghost predicate IsChain(ids: set<UniqueID>, dependencies: DependencyMap, p: seq<UniqueID>) {
    && p != []
    && (forall i | 0 <= i < |p| :: p[i] in ids)
    && (forall i, j | 0 <= i < j < |p| && j == i + 1 :: p[j] in Deps(dependencies, p[i]))
  }

  ghost predicate Acyclic(ids: set<UniqueID>, dependencies: DependencyMap) {
    forall p | IsChain(ids, dependencies, p) && |p| > 1 :: p[0] != p[|p| - 1]
  }

  /** The longest dependency chain that starts at id has n objects. */
  ghost predicate DepthIs(ids: set<UniqueID>, dependencies: DependencyMap, id: UniqueID, n: nat) {
    && (exists p :: IsChain(ids, dependencies, p) && p[0] == id && |p| == n)
    && (forall p | IsChain(ids, dependencies, p) && p[0] == id :: |p| <= n)
  }

  /** Every object is one tier above its highest dependency, and in tier 1 without any. */
  ghost predicate Layered(ids: set<UniqueID>, dependencies: DependencyMap, tier: map<UniqueID, nat>) {
    forall id | id in ids ::
      && id in tier
      && tier[id] >= 1
      && (forall d | d in Deps(dependencies, id) :: d in ids && d in tier && tier[d] < tier[id])
      && (tier[id] > 1 ==> exists d :: d in Deps(dependencies, id) && d in tier && tier[d] == tier[id] - 1)
  }

  lemma {:induction false} LayeredBoundsChain(ids: set<UniqueID>, dependencies: DependencyMap, tier: map<UniqueID, nat>,
                                              p: seq<UniqueID>)
    requires Layered(ids, dependencies, tier)
    requires IsChain(ids, dependencies, p)
    ensures |p| + tier[p[|p| - 1]] <= tier[p[0]] + 1
  {
    if |p| > 1 {
      LayeredBoundsChain(ids, dependencies, tier, p[1..]);
      assert p[1] in Deps(dependencies, p[0]);
    }
  }

  lemma {:induction false} LayeredHasChain(ids: set<UniqueID>, dependencies: DependencyMap, tier: map<UniqueID, nat>,
                                           id: UniqueID) returns (p: seq<UniqueID>)
    requires Layered(ids, dependencies, tier) && id in ids
    ensures IsChain(ids, dependencies, p) && p[0] == id && |p| == tier[id]
    decreases tier[id]
  {
    if tier[id] == 1 {
      p := [id];
    } else {
      var d :| d in Deps(dependencies, id) && d in tier && tier[d] == tier[id] - 1;
      var rest := LayeredHasChain(ids, dependencies, tier, d);
      p := [id] + rest;
    }
  }

  /** In a layered assignment the tier of an object is the length of its longest chain. */
  lemma LayeredIsDepth(ids: set<UniqueID>, dependencies: DependencyMap, tier: map<UniqueID, nat>)
    requires Layered(ids, dependencies, tier)
    ensures forall id | id in ids :: DepthIs(ids, dependencies, id, tier[id])
    ensures Closed(ids, dependencies) && Acyclic(ids, dependencies)
  {
    forall id | id in ids
      ensures DepthIs(ids, dependencies, id, tier[id])
    {
      var p := LayeredHasChain(ids, dependencies, tier, id);
      forall q | IsChain(ids, dependencies, q) && q[0] == id
        ensures |q| <= tier[id]
      {
        LayeredBoundsChain(ids, dependencies, tier, q);
      }
    }
    forall p | IsChain(ids, dependencies, p) && |p| > 1
      ensures p[0] != p[|p| - 1]
    {
      LayeredBoundsChain(ids, dependencies, tier, p);
    }
  }

  ghost predicate DependsInto(dependencies: DependencyMap, id: UniqueID, group: set<UniqueID>) {
    exists d :: d in Deps(dependencies, id) && d in group
  }

  lemma {:induction false} WalkInside(group: set<UniqueID>, dependencies: DependencyMap, n: nat)
    returns (p: seq<UniqueID>)
    requires group != {}
    requires forall id {:trigger DependsInto(dependencies, id, group)} | id in group ::
             DependsInto(dependencies, id, group)
    ensures |p| == n + 1 && IsChain(group, dependencies, p)
  {
    if n == 0 {
      var id :| id in group;
      p := [id];
    } else {
      var q := WalkInside(group, dependencies, n - 1);
      var last := q[n - 1];
      var waits := DependsInto(dependencies, last, group);
      assert last in group && waits;
      var d :| d in Deps(dependencies, last) && d in group;
      p := q + [d];
    }
  }

  lemma ChainSlice(ids: set<UniqueID>, dependencies: DependencyMap, group: set<UniqueID>, p: seq<UniqueID>, i: nat,
                   j: nat)
    requires group <= ids && IsChain(group, dependencies, p) && i < j < |p|
    ensures IsChain(ids, dependencies, p[i..j + 1])
  {
  }

  /** A non-empty group in which everyone waits for someone in the group contains a cycle. */
  lemma StuckGroupIsCyclic(ids: set<UniqueID>, dependencies: DependencyMap, group: set<UniqueID>)
    requires group != {} && group <= ids
    requires forall id {:trigger DependsInto(dependencies, id, group)} | id in group ::
             DependsInto(dependencies, id, group)
    ensures !Acyclic(ids, dependencies)
  {
    var p := WalkInside(group, dependencies, |group|);
    assert forall x | x in p :: x in group;
    var i, j := Pigeonhole(p, group);
    ChainSlice(ids, dependencies, group, p, i, j);
    var cycle := p[i..j + 1];
    assert cycle[0] == cycle[|cycle| - 1];
  }

  /** One of the two objects depends directly on the other. */
  ghost predicate Linked(dependencies: DependencyMap, a: UniqueID, b: UniqueID) {
    b in Deps(dependencies, a) || a in Deps(dependencies, b)
  }

  ghost predicate IsPath(ids: set<UniqueID>, dependencies: DependencyMap, p: seq<UniqueID>) {
    && p != []
    && (forall i | 0 <= i < |p| :: p[i] in ids)
    && (forall i, j | 0 <= i < j < |p| && j == i + 1 :: Linked(dependencies, p[i], p[j]))
  }

  /** The two objects are in the same component of the undirected dependency graph. */
  ghost predicate Connected(ids: set<UniqueID>, dependencies: DependencyMap, a: UniqueID, b: UniqueID) {
    exists p :: IsPath(ids, dependencies, p) && p[0] == a && p[|p| - 1] == b
  }

  lemma ConnectedRefl(ids: set<UniqueID>, dependencies: DependencyMap, a: UniqueID)
    requires a in ids
    ensures Connected(ids, dependencies, a, a)
  {
    assert IsPath(ids, dependencies, [a]);
  }

  lemma ConnectedLink(ids: set<UniqueID>, dependencies: DependencyMap, a: UniqueID, b: UniqueID)
    requires a in ids && b in ids && Linked(dependencies, a, b)
    ensures Connected(ids, dependencies, a, b)
  {
    assert IsPath(ids, dependencies, [a, b]);
  }

  lemma ConnectedSym(ids: set<UniqueID>, dependencies: DependencyMap, a: UniqueID, b: UniqueID)
    requires Connected(ids, dependencies, a, b)
    ensures Connected(ids, dependencies, b, a)
  {
    var p :| IsPath(ids, dependencies, p) && p[0] == a && p[|p| - 1] == b;
    var r := seq(|p|, i requires 0 <= i < |p| => p[|p| - 1 - i]);
    forall i, j | 0 <= i < j < |r| && j == i + 1
      ensures Linked(dependencies, r[i], r[j])
    {
      assert Linked(dependencies, p[|p| - 1 - j], p[|p| - 1 - i]);
    }
    assert IsPath(ids, dependencies, r);
  }

  lemma ConnectedTrans(ids: set<UniqueID>, dependencies: DependencyMap, a: UniqueID, b: UniqueID, c: UniqueID)
    requires Connected(ids, dependencies, a, b) && Connected(ids, dependencies, b, c)
    ensures Connected(ids, dependencies, a, c)
  {
    var p :| IsPath(ids, dependencies, p) && p[0] == a && p[|p| - 1] == b;
    var q :| IsPath(ids, dependencies, q) && q[0] == b && q[|q| - 1] == c;
    var r := p + q[1..];
    forall i, j | 0 <= i < j < |r| && j == i + 1
      ensures Linked(dependencies, r[i], r[j])
    {
      if j < |p| {
        assert Linked(dependencies, p[i], p[j]);
      } else {
        var k := i - (|p| - 1);
        assert r[i] == q[k] && r[j] == q[k + 1];
        assert Linked(dependencies, q[k], q[k + 1]);
      }
    }
    assert IsPath(ids, dependencies, r);
  }

  /** A numbering that agrees along every link agrees on every component. */
  lemma {:induction false} CohortsFollowPaths(ids: set<UniqueID>, dependencies: DependencyMap,
                                              cohort: map<UniqueID, nat>, p: seq<UniqueID>)
    requires ids <= cohort.Keys
    requires forall a, b | a in ids && b in ids && Linked(dependencies, a, b) :: cohort[a] == cohort[b]
    requires IsPath(ids, dependencies, p)
    ensures cohort[p[0]] == cohort[p[|p| - 1]]
  {
    if |p| > 1 {
      CohortsFollowPaths(ids, dependencies, cohort, p[1..]);
      assert Linked(dependencies, p[0], p[1]);
    }
  }
}

/** The order in which indexes are printed: a parent index before the indexes attached to it. */
module IndexOrder {
  import opened Collections

  /** parent is the oid of the parent index, 0 if there is none. */
  datatype Index = Index(oid: nat, schema: string, name: string, parent: nat, parentFQN: (string, string))

  type IndexMap = m: map<nat, Index> | forall oid | oid in m :: m[oid].oid == oid

  /** The parent of an index, if it has one and that one is in the map. */
  function ParentOf(m: IndexMap, oid: nat): Option<nat>
    requires oid in m
  {
    if m[oid].parent == 0 || m[oid].parent !in m then None else Some(m[oid].parent)
  }

  /** The index n steps up from an index. */
  function Up(m: IndexMap, oid: nat, n: nat): (r: Option<nat>)
    requires oid in m
    ensures r.Some? ==> r.value in m
  {
    if n == 0 then Some(oid)
    else match Up(m, oid, n - 1)
      case None => None
      case Some(below) => ParentOf(m, below)
  }

  ghost predicate Acyclic(m: IndexMap) {
    forall oid, n: nat | oid in m && n > 0 :: Up(m, oid, n) != Some(oid)
  }

  /** The order lists every index before the indexes it is the parent of. */
  ghost predicate ParentsFirst(m: IndexMap, order: seq<nat>) {
    forall k | 0 <= k < |order| :: ParentBefore(m, order, k)
  }

  ghost predicate ParentBefore(m: IndexMap, order: seq<nat>, k: nat)
    requires k < |order|
  {
    order[k] in m && (ParentOf(m, order[k]).Some? ==> ParentOf(m, order[k]).value in Visited(order, k))
  }

  /** What is printed for an index: the name of its parent filled in, which is empty for a parent not in the map. */
  function Printed(m: IndexMap, oid: nat): Index
    requires oid in m
  {
    var index := m[oid];
    if index.parent == 0 then index
    else index.(parentFQN := if index.parent in m then (m[index.parent].schema, m[index.parent].name) else ("", ""))
  }

  /** Each index on the stack is the parent of the one below it. */
  ghost predicate ClimbsUp(m: IndexMap, stack: seq<nat>) {
    && (forall i | 0 <= i < |stack| :: stack[i] in m)
    && forall i, j | 0 <= i < j < |stack| && j == i + 1 :: ParentOf(m, stack[i]) == Some(stack[j])
  }

  lemma {:induction false} UpTheStack(m: IndexMap, stack: seq<nat>, i: nat, n: nat)
    requires ClimbsUp(m, stack) && i + n < |stack|
    ensures Up(m, stack[i], n) == Some(stack[i + n])
  {
    if n > 0 {
      UpTheStack(m, stack, i, n - 1);
    }
  }

  /** The climb ends at an index whose parent, if any, is visited. */
  ghost predicate TopDone(m: IndexMap, stack: seq<nat>, visited: set<nat>)
    requires ClimbsUp(m, stack)
  {
    stack != [] && ParentOf(m, stack[|stack| - 1]).Some? ==> ParentOf(m, stack[|stack| - 1]).value in visited
  }

  /** Climbing from an index to its parents until one has been visited or there is none. */
  method Climb(m: IndexMap, start: nat, visited: set<nat>) returns (stack: seq<nat>, visited': set<nat>)
    requires start in m && visited <= m.Keys
    ensures ClimbsUp(m, stack) && NoDup(stack) && Elems(stack) !! visited
    ensures visited' == visited + Elems(stack) && visited' <= m.Keys && start in visited'
    ensures TopDone(m, stack, visited')
  {
    stack, visited' := [], visited;
    var current := start;
    while true
      invariant current in m && visited' == visited + Elems(stack) && visited' <= m.Keys
      invariant ClimbsUp(m, stack) && NoDup(stack) && Elems(stack) !! visited
      invariant if stack == [] then current == start
                else ParentOf(m, stack[|stack| - 1]) == Some(current) && start in visited'
      decreases m.Keys - visited'
    {
      if current in visited' {
        break;
      }
      ListOneMore(stack, Elems(stack), current);
      stack := stack + [current];
      visited' := visited' + {current};
      if m[current].parent == 0 || m[current].parent !in m {
        break;
      }
      current := m[current].parent;
    }
  }

  lemma RoundTheStack(m: IndexMap, stack: seq<nat>, i: nat)
    requires ClimbsUp(m, stack) && i < |stack| && ParentOf(m, stack[|stack| - 1]) == Some(stack[i])
    ensures Up(m, stack[i], |stack| - i) == Some(stack[i])
  {
    UpTheStack(m, stack, i, |stack| - 1 - i);
  }

  /** If no index is its own ancestor, the climb can only have ended at one visited before. */
  lemma TopDoneBefore(m: IndexMap, stack: seq<nat>, visited: set<nat>)
    requires Acyclic(m) && ClimbsUp(m, stack) && TopDone(m, stack, visited + Elems(stack))
    ensures TopDone(m, stack, visited)
  {
    if stack != [] && ParentOf(m, stack[|stack| - 1]).Some? && ParentOf(m, stack[|stack| - 1]).value in stack {
      var i :| 0 <= i < |stack| && stack[i] == ParentOf(m, stack[|stack| - 1]).value;
      RoundTheStack(m, stack, i);
      assert false;
    }
  }

  function Oids(sorted: seq<Index>): seq<nat> {
    seq(|sorted|, i requires 0 <= i < |sorted| => sorted[i].oid)
  }

  /** The indexes printed for an order. */
  function PrintedAll(m: IndexMap, order: seq<nat>): seq<Index>
    requires forall oid | oid in order :: oid in m
  {
    seq(|order|, i requires 0 <= i < |order| => Printed(m, order[i]))
  }

  /** What is printed of an index is the index, with its parent's schema and name if it has a parent in the map. */
  ghost predicate NamesParent(m: IndexMap, index: Index, printed: Index) {
    && printed.oid == index.oid && printed.schema == index.schema && printed.name == index.name
    && printed.parent == index.parent
    && printed.parentFQN ==
       if index.parent == 0 then index.parentFQN
       else if index.parent in m then (m[index.parent].schema, m[index.parent].name)
       else ("", "")
  }

  method SortIndexes(m: IndexMap, indexes: seq<nat>) returns (sorted: seq<Index>)
    requires Lists(indexes, m.Keys)
    ensures Lists(Oids(sorted), m.Keys) && forall index | index in sorted ::
            index.oid in m && index == Printed(m, index.oid)
    ensures forall index | index in sorted :: index.oid in m && NamesParent(m, m[index.oid], index)
    ensures Acyclic(m) ==> ParentsFirst(m, Oids(sorted))
  {
    var visited: set<nat> := {};
    ghost var order: seq<nat> := [];
    sorted := [];
    for k := 0 to |indexes|
      invariant Lists(order, visited) && visited <= m.Keys && Visited(indexes, k) <= visited
      invariant sorted == PrintedAll(m, order)
      invariant Acyclic(m) ==> ParentsFirst(m, order)
    {
      VisitOne(indexes, k);
      var stack;
      ghost var before := visited;
      stack, visited := Climb(m, indexes[k], visited);
      if Acyclic(m) {
        TopDoneBefore(m, stack, before);
      }
      var i := |stack| - 1;
      while i >= 0
        invariant -1 <= i < |stack|
        invariant Lists(order, before + Elems(stack[i + 1..]))
        invariant sorted == PrintedAll(m, order)
        invariant Acyclic(m) ==> ParentsFirst(m, order)
      {
        PopOne(m, order, before, stack, i);
        sorted := sorted + [Printed(m, stack[i])];
        order := order + [stack[i]];
        i := i - 1;
      }
      assert stack[0..] == stack;
    }
    VisitedAll(indexes);
    PrintedOids(m, order);
    forall index | index in sorted
      ensures index.oid in m && NamesParent(m, m[index.oid], index)
    {
      assert index == Printed(m, index.oid);
    }
  }

  lemma PrintedOids(m: IndexMap, order: seq<nat>)
    requires forall oid | oid in order :: oid in m
    ensures Oids(PrintedAll(m, order)) == order
    ensures forall index | index in PrintedAll(m, order) :: index.oid in m && index == Printed(m, index.oid)
  {
  }

  lemma PopOne(m: IndexMap, order: seq<nat>, before: set<nat>, stack: seq<nat>, i: nat)
    requires i < |stack| && NoDup(stack) && Elems(stack) !! before && ClimbsUp(m, stack)
    requires Lists(order, before + Elems(stack[i + 1..]))
    ensures Lists(order + [stack[i]], before + Elems(stack[i..]))
    ensures TopDone(m, stack, before) && ParentsFirst(m, order) ==> ParentsFirst(m, order + [stack[i]])
  {
    assert Elems(stack[i..]) == Elems(stack[i + 1..]) + {stack[i]};
    assert stack[i] in Elems(stack);
    ListOneMore(order, before + Elems(stack[i + 1..]), stack[i]);
    var order' := order + [stack[i]];
    if TopDone(m, stack, before) && ParentsFirst(m, order) {
      forall k | 0 <= k < |order'|
        ensures ParentBefore(m, order', k)
      {
        if k < |order| {
          assert ParentBefore(m, order, k);
          VisitedConcat(order, [stack[i]], k);
        } else {
          VisitedConcat(order, [stack[i]], k);
          VisitedAll(order);
          if i + 1 < |stack| {
            assert stack[i + 1] in Elems(stack[i + 1..]);
          }
        }
      }
    }
  }

  // ----- When parents can come first -----

  lemma {:induction false} AncestorsBefore(m: IndexMap, order: seq<nat>, k: nat, n: nat) returns (j: nat)
    requires ParentsFirst(m, order) && k < |order| && order[k] in m && Up(m, order[k], n).Some?
    ensures j <= k && Up(m, order[k], n) == Some(order[j]) && (n > 0 ==> j < k)
  {
    if n == 0 {
      j := k;
    } else {
      var i := AncestorsBefore(m, order, k, n - 1);
      assert ParentBefore(m, order, i);
      j :| 0 <= j < i && order[j] == ParentOf(m, order[i]).value;
    }
  }

  /** An order of all indexes with parents first exists if and only if no index is its own ancestor. */
  lemma ParentsFirstOnlyIfAcyclic(m: IndexMap, order: seq<nat>)
    requires Lists(order, m.Keys) && ParentsFirst(m, order)
    ensures Acyclic(m)
  {
    forall oid, n: nat | oid in m && n > 0
      ensures Up(m, oid, n) != Some(oid)
    {
      if Up(m, oid, n) == Some(oid) {
        assert oid in Elems(order);
        var k :| 0 <= k < |order| && order[k] == oid;
        var j := AncestorsBefore(m, order, k, n);
        assert false;
      }
    }
  }
}

/** Facts about sequences and sets that several components share. */
module Collections {

  datatype Option<+T> = None | Some(value: T)

  function Elems<T>(s: seq<T>): set<T> {
    set x | x in s
  }

  ghost predicate NoDup<T>(s: seq<T>) {
    forall i, j | 0 <= i < j < |s| :: s[i] != s[j]
  }

  lemma {:induction false} NoDupSize<T>(s: seq<T>)
    requires NoDup(s)
    ensures |Elems(s)| == |s|
  {
    if s == [] {
      assert Elems(s) == {};
    } else {
      var n := |s| - 1;
      NoDupSize(s[..n]);
      assert Elems(s) == Elems(s[..n]) + {s[n]};
    }
  }

  lemma {:induction false} ElemsSize<T>(s: seq<T>)
    ensures |Elems(s)| <= |s|
  {
    if s == [] {
      assert Elems(s) == {};
    } else {
      var n := |s| - 1;
      ElemsSize(s[..n]);
      assert Elems(s) == Elems(s[..n]) + {s[n]};
    }
  }

  /** s lists the members of xs, each once. */
  ghost predicate Lists<T>(s: seq<T>, xs: set<T>) {
    NoDup(s) && Elems(s) == xs
  }

  lemma ListOneMore<T>(s: seq<T>, xs: set<T>, x: T)
    requires Lists(s, xs) && x !in xs
    ensures Lists(s + [x], xs + {x})
  {
  }

  /** The first n elements. */
  ghost function Visited<T>(s: seq<T>, n: nat): set<T>
    requires n <= |s|
  {
    set i | 0 <= i < n :: s[i]
  }

  lemma VisitOne<T>(s: seq<T>, n: nat)
    requires n < |s|
    ensures Visited(s, n + 1) == Visited(s, n) + {s[n]}
    ensures s[n] in Elems(s)
    ensures NoDup(s) ==> s[n] !in Visited(s, n)
  {
  }

  lemma ElemsEmpty<T>(s: seq<T>)
    ensures Elems(s) == {} <==> s == []
  {
    if s != [] {
      assert s[0] in Elems(s);
    }
  }

  lemma ElemsConcat<T>(a: seq<T>, b: seq<T>)
    ensures Elems(a + b) == Elems(a) + Elems(b)
    ensures NoDup(a) && NoDup(b) && Elems(a) !! Elems(b) ==> NoDup(a + b)
  {
    forall x | x in Elems(a) + Elems(b)
      ensures x in a + b
    {
    }
    if NoDup(a) && NoDup(b) && Elems(a) !! Elems(b) {
      forall i, j | 0 <= i < j < |a + b|
        ensures (a + b)[i] != (a + b)[j]
      {
        if i < |a| <= j {
          assert a[i] in Elems(a) && b[j - |a|] in Elems(b);
        }
      }
    }
  }

  lemma VisitedConcat<T>(a: seq<T>, b: seq<T>, n: nat)
    requires n <= |a + b|
    ensures n <= |a| ==> Visited(a + b, n) == Visited(a, n)
    ensures n >= |a| ==> Elems(a) <= Visited(a + b, n)
  {
    if n <= |a| {
      forall i | 0 <= i < n
        ensures (a + b)[i] == a[i]
      {
      }
    } else {
      forall x | x in a
        ensures x in Visited(a + b, n)
      {
        var i :| 0 <= i < |a| && a[i] == x;
        assert (a + b)[i] == x;
      }
    }
  }

  lemma DropOne<T>(s: seq<T>, n: nat)
    requires n < |s|
    ensures s[n..] != [] && s[n..][0] == s[n] && s[n..][1..] == s[n + 1..]
  {
  }

  lemma TakeOneMore<T>(base: seq<T>, s: seq<T>, n: nat)
    requires n < |s|
    ensures base + s[..n] + [s[n]] == base + s[..n + 1]
  {
  }

  lemma VisitedAll<T>(s: seq<T>)
    ensures Visited(s, |s|) == Elems(s)
    ensures Visited(s, 0) == {}
  {
  }

  /** The size of a set, counted one element at a time. */
  ghost function Count<T>(s: set<T>): nat {
    if s == {} then 0 else var x :| x in s; 1 + Count(s - {x})
  }

  lemma {:induction false} CountIsSize<T>(s: set<T>)
    ensures Count(s) == |s|
    decreases s
  {
    if s != {} {
      var x :| x in s && Count(s) == 1 + Count(s - {x});
      CountIsSize(s - {x});
    }
  }

  lemma SubsetSize<T>(a: set<T>, b: set<T>)
    requires a <= b
    ensures |a| <= |b|
    ensures |a| == |b| ==> a == b
  {
    assert b == a + (b - a);
  }

  // A sequence longer than the set its elements come from repeats an element.
  lemma Pigeonhole<T>(s: seq<T>, pool: set<T>) returns (i: nat, j: nat)
    requires forall x | x in s :: x in pool
    requires |s| > |pool|
    ensures i < j < |s| && s[i] == s[j]
  {
    if NoDup(s) {
      NoDupSize(s);
      SubsetSize(Elems(s), pool);
      assert false;
    }
    i, j :| 0 <= i < j < |s| && s[i] == s[j];
  }

  // Two duplicate-free sequences over the same elements are permutations of each other.
  lemma NoDupPermutation<T>(a: seq<T>, b: seq<T>)
    requires NoDup(a) && NoDup(b) && Elems(a) == Elems(b)
    ensures |a| == |b| && multiset(a) == multiset(b)
  {
    NoDupSize(a);
    NoDupSize(b);
    NoDupMultiset(a);
    NoDupMultiset(b);
  }

  lemma {:induction false} NoDupMultiset<T>(s: seq<T>)
    requires NoDup(s)
    ensures multiset(s) == multiset(Elems(s))
  {
    if s == [] {
    } else {
      var n := |s| - 1;
      NoDupMultiset(s[..n]);
      assert s == s[..n] + [s[n]];
      assert Elems(s) == Elems(s[..n]) + {s[n]};
      assert s[n] !in Elems(s[..n]);
    }
  }

  /** The natural numbers below n. */
  ghost function Below(n: nat): (r: set<nat>)
    ensures forall i: nat :: i in r <==> i < n
    ensures |r| == n
  {
    if n == 0 then {} else Below(n - 1) + {n - 1}
  }

  /** The natural numbers from low up to, but not including, high. */
  ghost function Between(low: nat, high: nat): (r: set<nat>)
    requires low <= high
    ensures forall i: nat :: i in r <==> low <= i < high
    ensures |r| == high - low
    decreases high
  {
    if low == high then {} else Between(low, high - 1) + {high - 1}
  }

  lemma SplitSize<T>(whole: set<T>, part: set<T>)
    requires part <= whole
    ensures |whole| == |whole - part| + |part|
  {
    assert whole == (whole - part) + part;
  }

  /** Keys with different values in the pool are no more than the pool has elements. */
  lemma {:induction false} InjectionSize(xs: set<nat>, value: map<nat, nat>, pool: set<nat>)
    requires forall x | x in xs :: x in value && value[x] in pool
    requires forall x, y | x in xs && y in xs && x < y :: value[x] != value[y]
    ensures |xs| <= |pool|
    decreases xs
  {
    if xs != {} {
      var x :| x in xs;
      InjectionSize(xs - {x}, value, pool - {value[x]});
    }
  }

  /** idx lists the wanted positions, each once, in order. */
  ghost predicate ListsIndices(idx: seq<nat>, wanted: set<nat>) {
    Elems(idx) == wanted && forall i, j | 0 <= i < j < |idx| :: idx[i] < idx[j]
  }

  lemma OneIndexMore(idx: seq<nat>, wanted: set<nat>, n: nat)
    requires ListsIndices(idx, wanted) && forall i | i in wanted :: i < n
    ensures ListsIndices(idx + [n], wanted + {n})
  {
    forall i | 0 <= i < |idx|
      ensures idx[i] < n
    {
      assert idx[i] in Elems(idx);
    }
  }

  /** part are the elements of s at the wanted positions, in order. */
  ghost predicate TakesInOrder<T>(s: seq<T>, part: seq<T>, wanted: set<nat>) {
    exists idx :: ListsIndices(idx, wanted) && |idx| == |part| && TakenAt(s, part, idx)
  }

  ghost predicate TakenAt<T>(s: seq<T>, part: seq<T>, idx: seq<nat>)
    requires |idx| == |part|
  {
    forall k | 0 <= k < |idx| :: idx[k] < |s| && part[k] == s[idx[k]]
  }

  lemma TakeNone<T>(s: seq<T>)
    ensures TakesInOrder(s, [], {})
  {
    assert ListsIndices([], {}) && TakenAt(s, [], []);
  }

  lemma TakeOne<T>(s: seq<T>, part: seq<T>, wanted: set<nat>, n: nat)
    requires TakesInOrder(s, part, wanted) && n < |s| && forall i | i in wanted :: i < n
    ensures TakesInOrder(s, part + [s[n]], wanted + {n})
  {
    var idx :| ListsIndices(idx, wanted) && |idx| == |part| && TakenAt(s, part, idx);
    OneIndexMore(idx, wanted, n);
    assert TakenAt(s, part + [s[n]], idx + [n]);
  }

  lemma {:induction false} IndicesAhead(idx: seq<nat>, wanted: set<nat>, k: nat)
    requires ListsIndices(idx, wanted) && k < |idx|
    ensures k <= idx[k]
  {
    if k > 0 {
      IndicesAhead(idx, wanted, k - 1);
    }
  }

  /** Listing all positions below n leaves none out. */
  lemma AllIndices(idx: seq<nat>, n: nat)
    requires ListsIndices(idx, Below(n))
    ensures |idx| == n && forall k | 0 <= k < n :: idx[k] == k
  {
    assert NoDup(idx);
    NoDupSize(idx);
    forall k | 0 <= k < n
      ensures idx[k] == k
    {
      IndicesTight(idx, n, k);
    }
  }

  lemma {:induction false} IndicesTight(idx: seq<nat>, n: nat, k: nat)
    requires ListsIndices(idx, Below(n)) && |idx| == n && k < n
    ensures idx[k] == k
    decreases n - k
  {
    IndicesAhead(idx, Below(n), k);
    assert idx[k] in Elems(idx);
    if k + 1 < n {
      IndicesTight(idx, n, k + 1);
    }
  }

  /** Some listing of a set. */
  lemma {:induction false} Listing<T>(xs: set<T>) returns (s: seq<T>)
    ensures Lists(s, xs)
    decreases xs
  {
    if xs == {} {
      s := [];
    } else {
      var x :| x in xs;
      s := Listing(xs - {x});
      ListOneMore(s, xs - {x}, x);
      s := s + [x];
      assert xs - {x} + {x} == xs;
    }
  }

  /** The sum of f over the first n elements. */
  ghost function SumTo<T(!new)>(xs: seq<T>, f: T -> int, n: nat): int
    requires n <= |xs|
  {
    if n == 0 then 0 else SumTo(xs, f, n - 1) + f(xs[n - 1])
  }

  lemma {:induction false} SumToUpdate<T(!new)>(xs: seq<T>, f: T -> int, n: nat, i: nat, x: T)
    requires i < |xs| && n <= |xs|
    ensures SumTo(xs[i := x], f, n) == SumTo(xs, f, n) + if i < n then f(x) - f(xs[i]) else 0
  {
    if n > 0 {
      SumToUpdate(xs, f, n - 1, i, x);
    }
  }

  lemma {:induction false} SumToWithin<T(!new)>(xs: seq<T>, f: T -> int, n: nat, low: int, high: int)
    requires n <= |xs| && forall i | 0 <= i < n :: low <= f(xs[i]) <= high
    ensures low * n <= SumTo(xs, f, n) <= high * n
  {
    if n > 0 {
      SumToWithin(xs, f, n - 1, low, high);
    }
  }
}

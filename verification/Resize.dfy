/**
 * Restoring to a cluster of a different size: which contents of the backup each segment loads in which batch,
 * and why the row counts of backup and restore can be compared.
 */
module Resize {
  import opened Collections
  import RestoreHelper

  /** The number of passes it takes dest segments to load orig contents. */
  function Batches(resize: bool, orig: nat, dest: nat): (b: nat)
    requires dest >= 1
    ensures b >= 1
  {
    if resize && orig > dest then orig / dest + if orig % dest != 0 then 1 else 0 else 1
  }

  method GetResizeClusterInfo(isResizeCluster: bool, segmentCount: nat, contentIDs: nat)
    returns (origSize: nat, destSize: nat, resize: bool, batches: nat)
    requires contentIDs >= 2
    ensures destSize == contentIDs - 1 && resize == isResizeCluster && batches == Batches(resize, origSize, destSize)
    ensures origSize == if !isResizeCluster && segmentCount == 0 then destSize else segmentCount
    ensures !isResizeCluster || origSize <= destSize ==> batches == 1
    ensures isResizeCluster && origSize > destSize ==> destSize * (batches - 1) < origSize <= destSize * batches
  {
    resize, origSize, destSize := isResizeCluster, segmentCount, contentIDs - 1;
    if !isResizeCluster && origSize == 0 {
      origSize := destSize;
    }
    batches := 1;
    if isResizeCluster && origSize > destSize {
      batches := origSize / destSize;
      if origSize % destSize != 0 {
        batches := batches + 1;
      }
    }
  }

  /** The batches are just enough: all contents fit, and one batch less would not do. */
  lemma BatchesSuffice(orig: nat, dest: nat)
    requires dest >= 1
    ensures orig <= dest * Batches(true, orig, dest)
    ensures orig > dest ==> dest * (Batches(true, orig, dest) - 1) < orig
  {
  }

  /** The helper of segment s in a resize restore. */
  function HelperOf(s: nat, orig: nat, dest: nat, queue: nat, onErrorContinue: bool): RestoreHelper.Agent
    requires dest >= 1
  {
    RestoreHelper.Agent(s, dest, orig, true, Batches(true, orig, dest), queue, onErrorContinue)
  }

  /** Segment s loads content c in batch b. */
  predicate Loads(orig: nat, dest: nat, s: nat, b: nat, c: nat)
    requires dest >= 1
  {
    var a := HelperOf(s, orig, dest, 1, false);
    s < dest && RestoreHelper.HasData(a, b) && RestoreHelper.ContentOf(a, b) == c
  }

  /** Every content of the backup is loaded by exactly one segment in exactly one batch, and nothing else is. */
  lemma EachContentLoadedOnce(orig: nat, dest: nat, c: nat)
    requires dest >= 1
    ensures c < orig ==> Loads(orig, dest, c % dest, c / dest, c)
    ensures forall s, b | Loads(orig, dest, s, b, c) :: c < orig && s == c % dest && b == c / dest
  {
    BatchesSuffice(orig, dest);
    assert c == dest * (c / dest) + c % dest;
    if c < orig && c / dest >= Batches(true, orig, dest) {
      MultiplyMonotone(dest, Batches(true, orig, dest), c / dest);
      assert false;
    }
    forall s, b | Loads(orig, dest, s, b, c)
      ensures c < orig && s == c % dest && b == c / dest
    {
      DivModUnique(c, dest, b, s);
    }
  }

  lemma MultiplyMonotone(k: nat, a: int, b: int)
    requires a <= b
    ensures k * a <= k * b
  {
  }

  lemma DivModUnique(c: nat, d: nat, q: nat, r: nat)
    requires d >= 1 && r < d && c == r + d * q
    ensures c / d == q && c % d == r
  {
    var q', r' := c / d, c % d;
    assert c == d * q' + r';
    if q' > q {
      MultiplyMonotone(d, q + 1, q');
    } else if q' < q {
      MultiplyMonotone(d, q' + 1, q);
    }
  }

  // ----- Row counts -----

  /** The rows of the first n contents. */
  function RowsBelow(rows: seq<nat>, n: nat): nat
    requires n <= |rows|
  {
    if n == 0 then 0 else RowsBelow(rows, n - 1) + rows[n - 1]
  }

  /** The rows that the first s segments load in batch b; a segment beyond the contents of the backup loads none. */
  function BatchRows(rows: seq<nat>, dest: nat, b: nat, s: nat): nat {
    if s == 0 then 0
    else BatchRows(rows, dest, b, s - 1) + if s - 1 + dest * b < |rows| then rows[s - 1 + dest * b] else 0
  }

  /** What the COPYs of the first n batches report in total. */
  function RestoredRows(rows: seq<nat>, dest: nat, n: nat): nat {
    if n == 0 then 0 else RestoredRows(rows, dest, n - 1) + BatchRows(rows, dest, n - 1, dest)
  }

  function Least(a: nat, b: nat): nat {
    if a < b then a else b
  }

  lemma {:induction false} BatchIsSlice(rows: seq<nat>, dest: nat, b: nat, s: nat)
    requires dest >= 1
    ensures RowsBelow(rows, Least(dest * b, |rows|)) + BatchRows(rows, dest, b, s) ==
            RowsBelow(rows, Least(dest * b + s, |rows|))
  {
    if s > 0 {
      BatchIsSlice(rows, dest, b, s - 1);
    }
  }

  lemma {:induction false} BatchesAreSlices(rows: seq<nat>, dest: nat, n: nat)
    requires dest >= 1
    ensures RestoredRows(rows, dest, n) == RowsBelow(rows, Least(dest * n, |rows|))
  {
    if n > 0 {
      BatchesAreSlices(rows, dest, n - 1);
      BatchIsSlice(rows, dest, n - 1, dest);
      assert dest * n == dest * (n - 1) + dest;
    }
  }

  /** Loading all batches restores as many rows as were backed up. */
  lemma RowsConserved(rows: seq<nat>, dest: nat)
    requires dest >= 1
    ensures RestoredRows(rows, dest, Batches(true, |rows|, dest)) == RowsBelow(rows, |rows|)
  {
    BatchesSuffice(|rows|, dest);
    BatchesAreSlices(rows, dest, Batches(true, |rows|, dest));
  }

  /** The row check of one table, after its batches have been loaded. */
  predicate RowsAgree(isReplicated: bool, orig: nat, dest: nat, backedUp: nat, restored: nat)
    requires orig >= 1 && dest >= 1
  {
    if isReplicated && orig > dest then backedUp / orig == restored / dest else backedUp == restored
  }

  method RestoreSingleTableData(isReplicated: bool, rowsCopied: nat, origSize: nat, destSize: nat, clusterBatches: nat,
                                partialRows: seq<nat>)
    returns (ok: bool)
    requires origSize >= 1 && destSize >= 1 && |partialRows| == if isReplicated then 1 else clusterBatches
    ensures ok <==> RowsAgree(isReplicated, origSize, destSize, rowsCopied, RowsBelow(partialRows, |partialRows|))
    ensures !isReplicated || origSize <= destSize ==>
              (ok <==> RowsBelow(partialRows, |partialRows|) == rowsCopied)
    ensures isReplicated && origSize > destSize ==> (ok <==> partialRows[0] / destSize == rowsCopied / origSize)
  {
    var batches := if isReplicated then 1 else clusterBatches;
    var numRowsRestored := 0;
    for i := 0 to batches
      invariant numRowsRestored == RowsBelow(partialRows, i)
    {
      numRowsRestored := numRowsRestored + partialRows[i];
    }
    assert isReplicated ==> RowsBelow(partialRows, 0) == 0 && numRowsRestored == partialRows[0];
    var numRowsBackedUp := rowsCopied;
    if isReplicated && origSize > destSize {
      numRowsBackedUp := numRowsBackedUp / origSize;
      numRowsRestored := numRowsRestored / destSize;
    }
    ok := numRowsBackedUp == numRowsRestored;
  }

  /** A distributed table passes the check exactly if no row was lost or added over all batches. */
  lemma DistributedTableAgrees(rows: seq<nat>, dest: nat, restored: nat)
    requires dest >= 1 && |rows| >= 1
    ensures RowsAgree(false, |rows|, dest, RowsBelow(rows, |rows|), restored) <==>
            restored == RestoredRows(rows, dest, Batches(true, |rows|, dest))
  {
    RowsConserved(rows, dest);
  }

  /** A copy of n rows on every content of the backup. */
  predicate Replicated(rows: seq<nat>, n: nat) {
    forall c | 0 <= c < |rows| :: rows[c] == n
  }

  lemma {:induction false} ReplicatedRows(rows: seq<nat>, n: nat, k: nat)
    requires Replicated(rows, n) && k <= |rows|
    ensures RowsBelow(rows, k) == k * n
  {
    if k > 0 {
      ReplicatedRows(rows, n, k - 1);
    }
  }

  /**
   * A replicated table is loaded in one batch, so a smaller cluster loads fewer copies than were backed up. The check
   * then passes exactly if each segment can have loaded a full copy and there are not enough extra rows for another.
   */
  lemma ReplicatedTableAgrees(rows: seq<nat>, dest: nat, n: nat, restored: nat)
    requires dest >= 1 && |rows| > dest && Replicated(rows, n)
    ensures RowsAgree(true, |rows|, dest, RowsBelow(rows, |rows|), restored) <==> dest * n <= restored < dest * (n + 1)
    ensures RowsAgree(true, |rows|, dest, RowsBelow(rows, |rows|), RestoredRows(rows, dest, 1))
  {
    ReplicatedRows(rows, n, |rows|);
    DivModUnique(|rows| * n, |rows|, n, 0);
    BatchesAreSlices(rows, dest, 1);
    ReplicatedRows(rows, n, dest);
    QuotientIs(restored, dest, n);
    QuotientIs(dest * n, dest, n);
  }

  lemma QuotientIs(c: nat, d: nat, q: nat)
    requires d >= 1
    ensures c / d == q <==> d * q <= c < d * (q + 1)
    ensures d * (q + 1) == d * q + d
  {
    if d * q <= c < d * (q + 1) {
      DivModUnique(c, d, q, c - d * q);
    }
  }

  // ----- The file counts -----

  /** The contents below n that belong to segment s. */
  function ContentsBelow(s: nat, dest: nat, n: nat): seq<nat>
    requires dest >= 1
  {
    if n == 0 then [] else ContentsBelow(s, dest, n - 1) + if (n - 1) % dest == s then [n - 1] else []
  }

  /** The contents whose files a segment is checked for are those its helper reads, batch by batch. */
  lemma {:induction false} ContentsAreThoseRead(s: nat, dest: nat, n: nat)
    requires s < dest
    ensures var contents := ContentsBelow(s, dest, n);
      && (forall b | 0 <= b < |contents| :: contents[b] == s + dest * b)
      && (|contents| > 0 ==> s + dest * (|contents| - 1) < n)
      && n <= s + dest * |contents|
  {
    if n > 0 {
      ContentsAreThoseRead(s, dest, n - 1);
      var b := |ContentsBelow(s, dest, n - 1)|;
      if (n - 1) % dest == s {
        NextOfSegment(s, dest, n - 1, b);
      } else if n > s + dest * b {
        DivModUnique(n - 1, dest, b, s);
        assert false;
      }
    }
  }

  lemma NextOfSegment(s: nat, dest: nat, m: nat, b: nat)
    requires s < dest && m % dest == s && m <= s + dest * b && (b > 0 ==> s + dest * (b - 1) < m)
    ensures m == s + dest * b && dest * (b + 1) == dest * b + dest
  {
    var q := m / dest;
    assert m == dest * q + s;
    if q > b {
      MultiplyMonotone(dest, b + 1, q);
    } else if q < b {
      MultiplyMonotone(dest, q, b - 1);
    }
  }

  function ContentsOf(contentMap: map<nat, seq<nat>>, s: nat): seq<nat> {
    if s in contentMap then contentMap[s] else []
  }

  function CountOf(batchMap: map<nat, nat>, s: nat): nat {
    if s in batchMap then batchMap[s] else 0
  }

  /** The contents whose files to look for on each segment. */
  method ContentMap(origSize: nat, destSize: nat) returns (contentMap: map<nat, seq<nat>>)
    requires destSize >= 1
    ensures forall s | 0 <= s < destSize :: ContentsOf(contentMap, s) == ContentsBelow(s, destSize, origSize)
  {
    contentMap := map[];
    for i := 0 to origSize
      invariant forall s | 0 <= s < destSize :: ContentsOf(contentMap, s) == ContentsBelow(s, destSize, i)
    {
      contentMap := contentMap[i % destSize := ContentsOf(contentMap, i % destSize) + [i]];
    }
  }

  /** How many files there should be on each segment: a number of them for each content. */
  method BatchMap(origSize: nat, destSize: nat, fileCount: nat) returns (batchMap: map<nat, nat>)
    requires destSize >= 1
    ensures forall s | 0 <= s < destSize :: CountOf(batchMap, s) == fileCount * |ContentsBelow(s, destSize, origSize)|
  {
    batchMap := map[];
    for i := 0 to origSize
      invariant forall s | 0 <= s < destSize :: CountOf(batchMap, s) == fileCount * |ContentsBelow(s, destSize, i)|
    {
      OneMoreContent(i % destSize, destSize, i, fileCount);
      batchMap := batchMap[i % destSize := CountOf(batchMap, i % destSize) + fileCount];
    }
  }

  lemma OneMoreContent(s: nat, dest: nat, n: nat, fileCount: nat)
    requires dest >= 1 && n % dest == s
    ensures fileCount * |ContentsBelow(s, dest, n + 1)| == fileCount * |ContentsBelow(s, dest, n)| + fileCount
  {
  }
}

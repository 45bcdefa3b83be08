/**
 * The window of pipes a restore helper keeps while it works through its list, when some tables are skipped:
 * which pipes exist at each item, and which ones are left behind at the end.
 */
module RestoreWindow {
  import opened Collections
  import opened OidLists
  import CopyPipes

  /**
   * What happens when the helper gets to an item. SkipFile means that a skip file for the table is found
   * while the helper waits for a reader of the pipe; discardFails are the batches whose data then cannot be
   * discarded. Broken means that the copy fails after some bytes; clean means that the rest can be discarded.
   */
  datatype Outcome =
    | Copied
    | Broken(bytes: nat, clean: bool)
    | SkipFile(discardFails: set<nat>)

  /** The batches of a table follow each other in the list, in order. */
  ghost predicate WellFormed(list: seq<Item>, batches: nat) {
    && (forall i | 0 <= i < |list| :: list[i].batch < batches)
    && forall i, j | 0 <= i < j < |list| && list[i].oid == list[j].oid ::
         && list[j].batch == list[i].batch + (j - i)
         && forall m | i < m < j :: list[m].oid == list[i].oid
  }

  lemma PrependTable(entry: seq<Item>, rest: seq<Item>, oid: nat, batches: nat)
    requires |entry| <= batches && forall c | 0 <= c < |entry| :: entry[c] == Item(oid, c)
    requires WellFormed(rest, batches) && forall x | x in rest :: x.oid != oid
    ensures WellFormed(entry + rest, batches)
  {
  }

  /** The list the coordinator sends is well formed: each table once, its batches in order. */
  lemma {:induction false} OidListWellFormed(oids: seq<nat>, cfg: Config, t: nat, stride: nat)
    requires |oids| == |cfg.replicated| && stride > 0 && NoDup(oids) && cfg.batches >= 1
    ensures WellFormed(OidList(oids, cfg, t, stride), cfg.batches)
    ensures forall x | x in OidList(oids, cfg, t, stride) :: ListsTable(oids, t, x.oid)
    decreases |oids| + stride - t
  {
    if t < |oids| {
      OidListWellFormed(oids, cfg, t + stride, stride);
      var entry := seq(BatchesOf(cfg, t), b requires 0 <= b => Item(oids[t], b));
      var rest := OidList(oids, cfg, t + stride, stride);
      PrependTable(entry, rest, oids[t], cfg.batches);
      forall x: Item | x in entry + rest
        ensures ListsTable(oids, t, x.oid)
      {
        if x in entry {
          assert oids[t] == x.oid;
        } else {
          assert ListsTable(oids, t + stride, x.oid);
        }
      }
    }
  }

  ghost predicate ListsTable(oids: seq<nat>, t: nat, oid: nat) {
    exists u :: t <= u < |oids| && oids[u] == oid
  }

  /** A skip file of the table was found at one of the first n items. */
  ghost predicate Skipped(list: seq<Item>, outcomes: seq<Outcome>, oid: nat, n: nat)
    requires n <= |list| == |outcomes|
  {
    exists k :: 0 <= k < n && list[k].oid == oid && outcomes[k].SkipFile?
  }

  /** A skip file is looked for, and found, at item k. */
  ghost predicate SkipsAt(list: seq<Item>, outcomes: seq<Outcome>, k: nat)
    requires k < |list| == |outcomes|
  {
    outcomes[k].SkipFile? && !Skipped(list, outcomes, list[k].oid, k)
  }

  /** The pipe of item j outlives the skip of its table: it lies just beyond the pipes deleted then. */
  ghost predicate LeftBehind(list: seq<Item>, outcomes: seq<Outcome>, queue: nat, n: nat, j: nat)
    requires n <= |list| == |outcomes| && j < |list|
  {
    0 <= j - queue < n && SkipsAt(list, outcomes, j - queue) && list[j - queue].oid == list[j].oid
  }

  /** The pipes that exist when the helper has dealt with n items and has created pipes for the items below end. */
  ghost predicate PipesAt(list: seq<Item>, outcomes: seq<Outcome>, queue: nat, n: nat, end: nat, pipes: set<Item>)
    requires n <= |list| == |outcomes|
  {
    && (forall x | x in pipes :: x in list)
    && forall j: nat | j < |list| ::
         list[j] in pipes <==>
           LeftBehind(list, outcomes, queue, n, j) || (n <= j < end && !Skipped(list, outcomes, list[j].oid, n))
  }

  /** The table skipped last is the only one a skip can still matter for. */
  ghost predicate SkipOidIs(list: seq<Item>, outcomes: seq<Outcome>, n: nat, skipOid: Option<nat>)
    requires n <= |list| == |outcomes|
  {
    && (skipOid.Some? ==> Skipped(list, outcomes, skipOid.value, n))
    && forall j | n <= j < |list| && Skipped(list, outcomes, list[j].oid, n) :: skipOid == Some(list[j].oid)
  }

  lemma SkippedNext(list: seq<Item>, outcomes: seq<Outcome>, oid: nat, n: nat)
    requires n < |list| == |outcomes|
    ensures Skipped(list, outcomes, oid, n + 1) <==>
              Skipped(list, outcomes, oid, n) || (list[n].oid == oid && outcomes[n].SkipFile?)
  {
  }

  lemma Distinct(list: seq<Item>, batches: nat)
    requires WellFormed(list, batches)
    ensures NoDup(list)
  {
  }

  lemma StartWindow(list: seq<Item>, outcomes: seq<Outcome>, batches: nat, queue: nat, pipes: set<Item>)
    requires |list| == |outcomes| && queue <= |list| && WellFormed(list, batches)
    requires pipes == Visited(list, queue)
    ensures PipesAt(list, outcomes, queue, 0, queue, pipes)
    ensures SkipOidIs(list, outcomes, 0, None)
  {
  }

  /** Creating the pipe queue items ahead, unless its table is being skipped. */
  lemma CreateAhead(list: seq<Item>, outcomes: seq<Outcome>, batches: nat, queue: nat, n: nat, skipOid: Option<nat>,
                    pipes: set<Item>)
    requires n < |list| == |outcomes| && WellFormed(list, batches) && SkipOidIs(list, outcomes, n, skipOid)
    requires PipesAt(list, outcomes, queue, n, n + queue, pipes)
    ensures n + queue < |list| ==> list[n + queue] !in pipes
    ensures n + queue < |list| && Some(list[n + queue].oid) != skipOid ==>
              PipesAt(list, outcomes, queue, n, n + queue + 1, pipes + {list[n + queue]})
    ensures n + queue >= |list| || Some(list[n + queue].oid) == skipOid ==>
            PipesAt(list, outcomes, queue, n, n + queue + 1, pipes)
  {
  }

  /** An item of a table that is being skipped leaves the pipes as they are. */
  lemma PassOver(list: seq<Item>, outcomes: seq<Outcome>, batches: nat, queue: nat, n: nat, skipOid: Option<nat>,
                 pipes: set<Item>)
    requires n < |list| == |outcomes| && WellFormed(list, batches) && SkipOidIs(list, outcomes, n, skipOid)
    requires PipesAt(list, outcomes, queue, n, n + queue + 1, pipes) && Some(list[n].oid) == skipOid
    ensures PipesAt(list, outcomes, queue, n + 1, n + queue + 1, pipes)
    ensures SkipOidIs(list, outcomes, n + 1, skipOid)
  {
    forall oid
      ensures Skipped(list, outcomes, oid, n + 1) <==> Skipped(list, outcomes, oid, n)
    {
      SkippedNext(list, outcomes, oid, n);
    }
    forall j: nat | j < |list|
      ensures LeftBehind(list, outcomes, queue, n + 1, j) <==> LeftBehind(list, outcomes, queue, n, j)
    {
    }
  }

  /** An item that is served has a pipe, and deleting it moves the window on. */
  lemma Serve(list: seq<Item>, outcomes: seq<Outcome>, batches: nat, queue: nat, n: nat, skipOid: Option<nat>,
              pipes: set<Item>)
    requires n < |list| == |outcomes| && WellFormed(list, batches) && SkipOidIs(list, outcomes, n, skipOid) &&
             queue >= 1
    requires PipesAt(list, outcomes, queue, n, n + queue + 1, pipes)
    requires Some(list[n].oid) != skipOid && !outcomes[n].SkipFile?
    ensures list[n] in pipes
    ensures PipesAt(list, outcomes, queue, n + 1, n + queue + 1, pipes - {list[n]})
    ensures SkipOidIs(list, outcomes, n + 1, skipOid)
  {
    Distinct(list, batches);
    forall oid
      ensures Skipped(list, outcomes, oid, n + 1) <==> Skipped(list, outcomes, oid, n)
    {
      SkippedNext(list, outcomes, oid, n);
    }
    var pipes' := pipes - {list[n]};
    forall j: nat | j < |list|
      ensures list[j] in pipes' <==>
                LeftBehind(list, outcomes, queue, n + 1, j) ||
                (n + 1 <= j < n + queue + 1 && !Skipped(list, outcomes, list[j].oid, n + 1))
    {
      if j == n {
        assert !LeftBehind(list, outcomes, queue, n + 1, j);
      } else {
        assert list[j] != list[n];
      }
    }
  }

  /** The pipes deleted when a table is skipped at some batch: up to queue of its batches from that one on. */
  ghost function Deleted(x: Item, queue: nat, batches: nat): set<Item> {
    set b | x.batch <= b < x.batch + queue && b < batches :: Item(x.oid, b)
  }

  /** In the list of a single data file these are the items the pipe protocol takes away in a skip. */
  lemma DeletedAreSkipped(oids: seq<nat>, cfg: Config, h: CopyPipes.Helper, i: nat)
    requires |oids| == |cfg.replicated| && NoDup(oids) && cfg.batches >= 1
    requires h.pos < Len(cfg) && i in h.live && i < Len(cfg)
    ensures |OidList(oids, cfg, 0, 1)| == Len(cfg)
    ensures i in CopyPipes.SkipDeletes(cfg, h) <==>
              OidList(oids, cfg, 0, 1)[i] in Deleted(OidList(oids, cfg, 0, 1)[h.pos], cfg.queue, cfg.batches)
  {
    var t, b := Locate(cfg, |cfg.replicated|, h.pos);
    var u, c := Locate(cfg, |cfg.replicated|, i);
    OidListAt(oids, cfg, 0, t, b);
    OidListAt(oids, cfg, 0, u, c);
    TableAtIs(cfg, t, b);
    TableAtIs(cfg, u, c);
    var list := OidList(oids, cfg, 0, 1);
    assert list[h.pos] == Item(oids[t], b) && list[i] == Item(oids[u], c);
    if u == t {
      assert c < cfg.batches && i - h.pos == c - b;
      assert list[i] in Deleted(list[h.pos], cfg.queue, cfg.batches) <==> b <= c < b + cfg.queue;
    } else {
      assert oids[u] != oids[t];
    }
  }

  lemma SkipHere(list: seq<Item>, outcomes: seq<Outcome>, batches: nat, queue: nat, n: nat, skipOid: Option<nat>,
                 pipes: set<Item>)
    requires n < |list| == |outcomes| && WellFormed(list, batches) && SkipOidIs(list, outcomes, n, skipOid) &&
             queue >= 1
    requires PipesAt(list, outcomes, queue, n, n + queue + 1, pipes)
    requires Some(list[n].oid) != skipOid && outcomes[n].SkipFile?
    ensures PipesAt(list, outcomes, queue, n + 1, n + queue + 1, pipes - Deleted(list[n], queue, batches))
    ensures SkipOidIs(list, outcomes, n + 1, Some(list[n].oid))
  {
    forall oid
      ensures Skipped(list, outcomes, oid, n + 1) <==> Skipped(list, outcomes, oid, n) || oid == list[n].oid
    {
      SkippedNext(list, outcomes, oid, n);
    }
    assert SkipsAt(list, outcomes, n);
    forall j: nat | j < |list|
      ensures list[j] in pipes - Deleted(list[n], queue, batches) <==>
                LeftBehind(list, outcomes, queue, n + 1, j) ||
                  (n + 1 <= j < n + queue + 1 && !Skipped(list, outcomes, list[j].oid, n + 1))
    {
      SkipHereAt(list, outcomes, batches, queue, n, pipes, j);
    }
    forall j | n + 1 <= j < |list| && Skipped(list, outcomes, list[j].oid, n + 1)
      ensures list[j].oid == list[n].oid
    {
    }
  }

  lemma SkipHereAt(list: seq<Item>, outcomes: seq<Outcome>, batches: nat, queue: nat, n: nat, pipes: set<Item>, j: nat)
    requires n < |list| == |outcomes| && j < |list| && WellFormed(list, batches) && queue >= 1
    requires PipesAt(list, outcomes, queue, n, n + queue + 1, pipes) && SkipsAt(list, outcomes, n)
    ensures list[j] in pipes - Deleted(list[n], queue, batches) <==>
              LeftBehind(list, outcomes, queue, n + 1, j) ||
                (n + 1 <= j < n + queue + 1 && !Skipped(list, outcomes, list[j].oid, n + 1))
  {
  }

  // ----- What is left at the end -----

  /** No pipe is left at the end if and only if no skip leaves the pipe just beyond its reach behind. */
  lemma NothingLeftIff(list: seq<Item>, outcomes: seq<Outcome>, batches: nat, queue: nat, pipes: set<Item>)
    requires |list| == |outcomes| && WellFormed(list, batches)
    requires PipesAt(list, outcomes, queue, |list|, |list| + queue, pipes)
    ensures pipes == {} <==> forall k | 0 <= k < |list| - queue && SkipsAt(list, outcomes, k) ::
            list[k + queue].oid != list[k].oid
  {
  }

  /** With as many pipes ahead as a table has batches, or as the list has items, nothing can be left. */
  lemma WideWindowLeavesNothing(list: seq<Item>, outcomes: seq<Outcome>, batches: nat, queue: nat, n: nat, end: nat,
                                pipes: set<Item>)
    requires n <= |list| == |outcomes| && WellFormed(list, batches) && (queue >= batches || queue >= |list|)
    requires PipesAt(list, outcomes, queue, n, end, pipes)
    ensures forall j: nat | j < |list| :: !LeftBehind(list, outcomes, queue, n, j)
    ensures forall x | x in pipes :: exists j :: n <= j < end && j < |list| && list[j] == x
  {
  }

  lemma WindowSize(list: seq<Item>, n: nat, end: nat, pipes: set<Item>)
    requires n <= |list| && n <= end
    requires forall x | x in pipes :: exists j :: n <= j < end && j < |list| && list[j] == x
    ensures |pipes| <= end - n
  {
    var window := list[n..if end < |list| then end else |list|];
    forall x | x in pipes
      ensures x in Elems(window)
    {
      var j :| n <= j < end && j < |list| && list[j] == x;
      assert window[j - n] == x;
    }
    ElemsSize(window);
    SubsetSize(pipes, Elems(window));
  }

  /** With a window of one pipe, skipping a table that has another batch leaves a pipe behind. */
  lemma NarrowWindowLeavesPipe(oid: nat)
    ensures var list, outcomes := [Item(oid, 0), Item(oid, 1)], [SkipFile({}), Copied];
      && WellFormed(list, 2)
      && forall pipes | PipesAt(list, outcomes, 1, 2, 3, pipes) :: pipes == {Item(oid, 1)}
  {
    var list, outcomes := [Item(oid, 0), Item(oid, 1)], [SkipFile({}), Copied];
    forall pipes | PipesAt(list, outcomes, 1, 2, 3, pipes)
      ensures pipes == {Item(oid, 1)}
    {
      assert SkipsAt(list, outcomes, 0);
      assert LeftBehind(list, outcomes, 1, 2, 1);
      assert list[1] in pipes && list[0] !in pipes;
    }
  }
}

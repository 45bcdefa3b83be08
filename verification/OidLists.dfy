/** The tables to restore, with their batches, as one flat list, and the strides in which workers go through it. */
module OidLists {
  import opened Collections

  /**
   * replicated: which of the tables to restore are replicated and so have a single batch.
   * queue: how many pipes the coordinator creates before the helpers start, which is also how far ahead
   * of its position a helper creates pipes.
   */
  datatype Config = Config(replicated: seq<bool>, batches: nat, conns: nat, queue: nat, segments: nat)

  ghost predicate ValidConfig(cfg: Config) {
    cfg.batches >= 1 && cfg.conns >= 1 && cfg.segments >= 1 && 1 <= cfg.queue <= Len(cfg)
  }

  function BatchesOf(cfg: Config, t: nat): nat {
    if t < |cfg.replicated| && cfg.replicated[t] then 1 else cfg.batches
  }

  /** The flat position of the first batch of table t; positions stop growing after the last table. */
  function Start(cfg: Config, t: nat): nat {
    if t == 0 then 0
    else if t > |cfg.replicated| then Start(cfg, t - 1)
    else Start(cfg, t - 1) + BatchesOf(cfg, t - 1)
  }

  function Len(cfg: Config): nat {
    Start(cfg, |cfg.replicated|)
  }

  lemma {:induction false} StartMonotone(cfg: Config, t: nat, u: nat)
    requires t <= u
    ensures Start(cfg, t) <= Start(cfg, u) <= Start(cfg, t) + (u - t) * cfg.batches + (u - t)
    ensures u >= |cfg.replicated| ==> Start(cfg, u) == Len(cfg)
    ensures cfg.batches >= 1 ==> Start(cfg, u) <= Start(cfg, t) + (u - t) * cfg.batches
    decreases u
  {
    if t < u {
      StartMonotone(cfg, t, u - 1);
      assert (u - t) * cfg.batches == (u - 1 - t) * cfg.batches + cfg.batches;
    }
    if u > |cfg.replicated| {
      StartMonotone(cfg, if t < u - 1 then t else u - 1, u - 1);
    }
  }

  lemma StartBefore(cfg: Config, t: nat, u: nat)
    requires t < u && t < |cfg.replicated|
    ensures Start(cfg, t) + BatchesOf(cfg, t) <= Start(cfg, u)
  {
    StartMonotone(cfg, t + 1, u);
  }

  /** The table and batch at a flat position. */
  lemma {:induction false} Locate(cfg: Config, n: nat, i: nat) returns (t: nat, b: nat)
    requires n <= |cfg.replicated| && i < Start(cfg, n)
    ensures t < n && b < BatchesOf(cfg, t) && i == Start(cfg, t) + b
  {
    if i >= Start(cfg, n - 1) {
      t, b := n - 1, i - Start(cfg, n - 1);
    } else {
      t, b := Locate(cfg, n - 1, i);
    }
  }

  /** The worker whose strides reach table t: every conns-th table from its own number on. */
  function Owner(conns: nat, t: nat): (w: nat)
    requires conns > 0
    ensures w < conns && w <= t
  {
    if t < conns then t else Owner(conns, t - conns)
  }

  lemma {:induction false} StridesDisjoint(conns: nat, t: nat, u: nat)
    requires conns > 0 && t < u < t + conns
    ensures Owner(conns, t) != Owner(conns, u)
  {
    if t >= conns {
      StridesDisjoint(conns, t - conns, u - conns);
    } else if u >= conns {
      assert Owner(conns, u) == u - conns;
    }
  }

  // ----- The flat list -----

  /** One entry of the list: a batch of a table, which has a pipe of its own. */
  datatype Item = Item(oid: nat, batch: nat)

  /** The list the coordinator sends: the tables of helper h in stride, each with its batches. */
  function OidList(oids: seq<nat>, cfg: Config, t: nat, stride: nat): seq<Item>
    requires |oids| == |cfg.replicated| && stride > 0
    decreases |oids| + stride - t
  {
    if t >= |oids| then []
    else seq(BatchesOf(cfg, t), b requires 0 <= b => Item(oids[t], b)) + OidList(oids, cfg, t + stride, stride)
  }

  method BuildOidList(oids: seq<nat>, cfg: Config, whichConn: nat, maxHelpers: nat) returns (oidList: seq<Item>)
    requires |oids| == |cfg.replicated| && maxHelpers > 0
    ensures oidList == OidList(oids, cfg, whichConn, maxHelpers)
  {
    oidList := [];
    var entryIdx := whichConn;
    while entryIdx < |oids|
      invariant oidList + OidList(oids, cfg, entryIdx, maxHelpers) == OidList(oids, cfg, whichConn, maxHelpers)
      decreases |oids| + maxHelpers - entryIdx
    {
      var entry: seq<Item> := [];
      if cfg.replicated[entryIdx] {
        entry := entry + [Item(oids[entryIdx], 0)];
      } else {
        var b := 0;
        while b < cfg.batches
          invariant 0 <= b <= cfg.batches
          invariant |entry| == b && forall c | 0 <= c < b :: entry[c] == Item(oids[entryIdx], c)
        {
          entry := entry + [Item(oids[entryIdx], b)];
          b := b + 1;
        }
      }
      AppendEntry(oids, cfg, entryIdx, maxHelpers, oidList, entry);
      oidList := oidList + entry;
      entryIdx := entryIdx + maxHelpers;
    }
  }

  lemma AppendEntry(oids: seq<nat>, cfg: Config, t: nat, stride: nat, before: seq<Item>, entry: seq<Item>)
    requires |oids| == |cfg.replicated| && stride > 0 && t < |oids|
    requires |entry| == BatchesOf(cfg, t) && forall c | 0 <= c < |entry| :: entry[c] == Item(oids[t], c)
    ensures before + OidList(oids, cfg, t, stride) == before + entry + OidList(oids, cfg, t + stride, stride)
  {
  }

  /** With one helper, position Start(t) + b of the list is batch b of table t. */
  lemma {:induction false} OidListAt(oids: seq<nat>, cfg: Config, u: nat, t: nat, b: nat)
    requires |oids| == |cfg.replicated| && u <= t < |oids| && b < BatchesOf(cfg, t)
    ensures var rest := OidList(oids, cfg, u, 1);
      && |rest| == Len(cfg) - Start(cfg, u)
      && Start(cfg, u) <= Start(cfg, t) + b < Len(cfg)
      && rest[Start(cfg, t) + b - Start(cfg, u)] == Item(oids[t], b)
    decreases |oids| - u
  {
    StartMonotone(cfg, u, t);
    StartBefore(cfg, t, |oids|);
    OidListSize(oids, cfg, u);
    if u < t {
      StartBefore(cfg, u, t);
      OidListAt(oids, cfg, u + 1, t, b);
    }
  }

  lemma {:induction false} OidListSize(oids: seq<nat>, cfg: Config, u: nat)
    requires |oids| == |cfg.replicated| && u <= |oids|
    ensures |OidList(oids, cfg, u, 1)| == Len(cfg) - Start(cfg, u)
    decreases |oids| - u
  {
    if u < |oids| {
      OidListSize(oids, cfg, u + 1);
    }
  }

  /** CreateInitialSegmentPipes for a single data file: the pipes made before the helpers start. */
  function InitialPipes(listLen: nat, numConns: nat): (pipes: nat)
    ensures pipes <= listLen && pipes <= numConns && (pipes == listLen || pipes == numConns)
  {
    if numConns < listLen then numConns else listLen
  }

  // ----- The table at a position -----

  function TableBelow(cfg: Config, n: nat, i: nat): nat {
    if n == 0 then 0 else if Start(cfg, n - 1) <= i then n - 1 else TableBelow(cfg, n - 1, i)
  }

  /** The table of the item at a flat position. */
  function TableAt(cfg: Config, i: nat): nat {
    TableBelow(cfg, |cfg.replicated|, i)
  }

  lemma {:induction false} TableBelowIs(cfg: Config, n: nat, t: nat, b: nat)
    requires t < n <= |cfg.replicated| && b < BatchesOf(cfg, t)
    ensures TableBelow(cfg, n, Start(cfg, t) + b) == t
  {
    if t < n - 1 {
      StartBefore(cfg, t, n - 1);
      TableBelowIs(cfg, n - 1, t, b);
    }
  }

  lemma TableAtIs(cfg: Config, t: nat, b: nat)
    requires t < |cfg.replicated| && b < BatchesOf(cfg, t)
    ensures TableAt(cfg, Start(cfg, t) + b) == t
  {
    TableBelowIs(cfg, |cfg.replicated|, t, b);
  }

  lemma TableAtBounds(cfg: Config, i: nat)
    requires i < Len(cfg)
    ensures var t := TableAt(cfg, i); t < |cfg.replicated| && Start(cfg, t) <= i < Start(cfg, t) + BatchesOf(cfg, t)
  {
    var t, b := Locate(cfg, |cfg.replicated|, i);
    TableAtIs(cfg, t, b);
  }

  lemma TableAtMonotone(cfg: Config, i: nat, j: nat)
    requires i <= j < Len(cfg)
    ensures TableAt(cfg, i) <= TableAt(cfg, j)
  {
    TableAtBounds(cfg, i);
    TableAtBounds(cfg, j);
    if TableAt(cfg, j) < TableAt(cfg, i) {
      StartBefore(cfg, TableAt(cfg, j), TableAt(cfg, i));
    }
  }
}

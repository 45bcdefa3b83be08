/**
 * Restore plans over a chain of backups: one full backup and any number of incremental ones, each based on
 * the one before. The plan of the last backup says from which backup each table is to be restored.
 */
module Incremental {
  import opened Collections

  /** A table's quoted schema and name, which the program joins with a dot. */
  datatype Fqn = Fqn(schema: string, name: string)

  /** What is recorded of an append-optimized table to see whether it changes. */
  datatype AOEntry = AOEntry(modcount: int, lastDDLTimestamp: string)

  const ZERO_ENTRY := AOEntry(0, "")

  datatype PlanEntry = PlanEntry(timestamp: string, tableFQNs: seq<Fqn>)

  /** A backup run: the tables with data in the database at that time, and the entries of the append-optimized ones. */
  datatype Backup = Backup(timestamp: string, tables: seq<Fqn>, ao: map<Fqn, AOEntry>)

  /** Looking up a table that has no entry gives the zero entry. */
  function Lookup(ao: map<Fqn, AOEntry>, t: Fqn): AOEntry {
    if t in ao then ao[t] else ZERO_ENTRY
  }

  /** An incremental backup stores a table unless it is append-optimized with the entry it had before. */
  predicate Changed(last: map<Fqn, AOEntry>, current: map<Fqn, AOEntry>, t: Fqn) {
    t in current ==> Lookup(last, t) != current[t]
  }

  function ChangedTables(last: map<Fqn, AOEntry>, current: map<Fqn, AOEntry>, tables: seq<Fqn>, n: nat): seq<Fqn>
    requires n <= |tables|
  {
    if n == 0 then []
    else ChangedTables(last, current, tables, n - 1) +
         if Changed(last, current, tables[n - 1]) then [tables[n - 1]] else []
  }

  /** The table has to be stored: it is not append-optimized, or its entry is not the one of the last backup. */
  ghost predicate MustStore(last: map<Fqn, AOEntry>, current: map<Fqn, AOEntry>, t: Fqn) {
    t in current ==> current[t] != if t in last then last[t] else AOEntry(0, "")
  }

  /** The positions, below n, of the tables that have to be stored. */
  ghost function ToStore(last: map<Fqn, AOEntry>, current: map<Fqn, AOEntry>, tables: seq<Fqn>, n: nat): set<nat>
    requires n <= |tables|
  {
    set i | 0 <= i < n && MustStore(last, current, tables[i])
  }

  lemma {:induction false} ChangedIsStored(last: map<Fqn, AOEntry>, current: map<Fqn, AOEntry>, tables: seq<Fqn>,
                                           n: nat)
    requires n <= |tables|
    ensures TakesInOrder(tables, ChangedTables(last, current, tables, n), ToStore(last, current, tables, n))
  {
    if n == 0 {
      TakeNone(tables);
      assert ToStore(last, current, tables, 0) == {};
    } else {
      ChangedIsStored(last, current, tables, n - 1);
      var wanted := ToStore(last, current, tables, n - 1);
      if MustStore(last, current, tables[n - 1]) {
        TakeOne(tables, ChangedTables(last, current, tables, n - 1), wanted, n - 1);
        assert ToStore(last, current, tables, n) == wanted + {n - 1};
      } else {
        assert ToStore(last, current, tables, n) == wanted;
      }
    }
  }

  method FilterTablesForIncremental(last: map<Fqn, AOEntry>, current: map<Fqn, AOEntry>, tables: seq<Fqn>)
    returns (filtered: seq<Fqn>)
    ensures filtered == ChangedTables(last, current, tables, |tables|)
    ensures TakesInOrder(tables, filtered, ToStore(last, current, tables, |tables|))
  {
    ChangedIsStored(last, current, tables, |tables|);
    filtered := [];
    for i := 0 to |tables|
      invariant filtered == ChangedTables(last, current, tables, i)
    {
      var t := tables[i];
      if t !in current {
        filtered := filtered + [t];
        continue;
      }
      var previous := Lookup(last, t);
      if previous.modcount != current[t].modcount || previous.lastDDLTimestamp != current[t].lastDDLTimestamp {
        filtered := filtered + [t];
      }
    }
  }

  /** The tables that stay in an older entry of the plan. */
  function Kept(tables: seq<Fqn>, changed: set<Fqn>, all: set<Fqn>, n: nat): seq<Fqn>
    requires n <= |tables|
  {
    if n == 0 then []
    else Kept(tables, changed, all, n - 1) +
         if tables[n - 1] !in changed && tables[n - 1] in all then [tables[n - 1]] else []
  }

  function KeptEntry(entry: PlanEntry, changed: set<Fqn>, all: set<Fqn>): PlanEntry {
    PlanEntry(entry.timestamp, Kept(entry.tableFQNs, changed, all, |entry.tableFQNs|))
  }

  function NextPlan(plan: seq<PlanEntry>, changed: seq<Fqn>, all: seq<Fqn>, timestamp: string): seq<PlanEntry> {
    seq(|plan|, i requires 0 <= i < |plan| => KeptEntry(plan[i], Elems(changed), Elems(all))) +
      [PlanEntry(timestamp, changed)]
  }

  method PopulateRestorePlan(changedTables: seq<Fqn>, restorePlan: seq<PlanEntry>, allTables: seq<Fqn>,
                             timestamp: string)
    returns (plan: seq<PlanEntry>)
    ensures plan == NextPlan(restorePlan, changedTables, allTables, timestamp)
  {
    plan := restorePlan;
    for i := 0 to |restorePlan|
      invariant |plan| == |restorePlan|
      invariant forall j | 0 <= j < i :: plan[j] == KeptEntry(restorePlan[j], Elems(changedTables), Elems(allTables))
      invariant forall j | i <= j < |plan| :: plan[j] == restorePlan[j]
    {
      var tableFQNs: seq<Fqn> := [];
      var entry := plan[i].tableFQNs;
      for k := 0 to |entry|
        invariant tableFQNs == Kept(entry, Elems(changedTables), Elems(allTables), k)
      {
        if !(entry[k] in changedTables) && entry[k] in allTables {
          tableFQNs := tableFQNs + [entry[k]];
        }
      }
      plan := plan[i := PlanEntry(plan[i].timestamp, tableFQNs)];
    }
    plan := plan + [PlanEntry(timestamp, changedTables)];
  }

  // ----- Chains of backups -----

  ghost predicate ValidChain(chain: seq<Backup>) {
    chain != [] && forall b | b in chain :: NoDup(b.tables)
  }

  /** The tables that backup n stores: all of them in the full backup, the changed ones afterwards. */
  function Stored(chain: seq<Backup>, n: nat): seq<Fqn>
    requires n < |chain|
  {
    if n == 0 then chain[0].tables
    else ChangedTables(chain[n - 1].ao, chain[n].ao, chain[n].tables, |chain[n].tables|)
  }

  /** The restore plans recorded with the backups: each extends the plan of the backup it is based on. */
  ghost predicate PlansOf(chain: seq<Backup>, plans: seq<seq<PlanEntry>>) {
    |plans| == |chain| && forall n | 0 <= n < |plans| :: PlanFollows(chain, plans, n)
  }

  ghost predicate PlanFollows(chain: seq<Backup>, plans: seq<seq<PlanEntry>>, n: nat)
    requires n < |chain| == |plans|
  {
    plans[n] == NextPlan(if n == 0 then [] else plans[n - 1], Stored(chain, n), chain[n].tables, chain[n].timestamp)
  }

  /** Backup n has table t, and stores it. */
  predicate StoredAt(chain: seq<Backup>, n: nat, t: Fqn)
    requires n < |chain|
  {
    t in chain[n].tables && (n > 0 ==> Changed(chain[n - 1].ao, chain[n].ao, t))
  }

  /** The last backup, up to backup n, that stored table t, provided the table existed ever since. */
  function Source(chain: seq<Backup>, n: nat, t: Fqn): Option<nat>
    requires n < |chain|
  {
    if t !in chain[n].tables then None
    else if StoredAt(chain, n, t) then Some(n)
    else Source(chain, n - 1, t)
  }

  lemma {:induction false} ChangedTablesAre(last: map<Fqn, AOEntry>, current: map<Fqn, AOEntry>, tables: seq<Fqn>,
                                            n: nat, t: Fqn)
    requires n <= |tables|
    ensures t in ChangedTables(last, current, tables, n) <==> Changed(last, current, t) && t in Visited(tables, n)
    ensures NoDup(tables) ==> NoDup(ChangedTables(last, current, tables, n))
  {
    if n > 0 {
      ChangedTablesAre(last, current, tables, n - 1, t);
      VisitOne(tables, n - 1);
      if NoDup(tables) {
        ChangedTablesAre(last, current, tables, n - 1, tables[n - 1]);
        AppendNoDup(ChangedTables(last, current, tables, n - 1), tables[n - 1]);
      }
    }
  }

  lemma AppendNoDup(s: seq<Fqn>, x: Fqn)
    requires NoDup(s) && x !in s
    ensures NoDup(s + [x])
  {
  }

  lemma {:induction false} KeptAre(tables: seq<Fqn>, changed: set<Fqn>, all: set<Fqn>, n: nat, t: Fqn)
    requires n <= |tables|
    ensures t in Kept(tables, changed, all, n) <==> t in Visited(tables, n) && t !in changed && t in all
    ensures NoDup(tables) ==> NoDup(Kept(tables, changed, all, n))
  {
    if n > 0 {
      KeptAre(tables, changed, all, n - 1, t);
      VisitOne(tables, n - 1);
      if NoDup(tables) {
        KeptAre(tables, changed, all, n - 1, tables[n - 1]);
        AppendNoDup(Kept(tables, changed, all, n - 1), tables[n - 1]);
      }
    }
  }

  lemma StoredAre(chain: seq<Backup>, n: nat, t: Fqn)
    requires ValidChain(chain) && n < |chain|
    ensures t in Stored(chain, n) <==> StoredAt(chain, n, t)
    ensures NoDup(Stored(chain, n))
  {
    VisitedAll(chain[n].tables);
    assert chain[n] in chain;
    if n > 0 {
      ChangedTablesAre(chain[n - 1].ao, chain[n].ao, chain[n].tables, |chain[n].tables|, t);
    }
  }

  ghost predicate ListsSource(chain: seq<Backup>, plan: seq<PlanEntry>, n: nat, k: nat, t: Fqn)
    requires k <= n < |chain|
  {
    && |plan| == n + 1
    && plan[k].timestamp == chain[k].timestamp && NoDup(plan[k].tableFQNs)
    && (t in plan[k].tableFQNs <==> Source(chain, n, t) == Some(k))
  }

  /** Storing a table makes the backup its source; otherwise the source stays while the table is there. */
  lemma SourceStep(chain: seq<Backup>, n: nat, k: nat, t: Fqn)
    requires k <= n < |chain|
    ensures k == n ==> (Source(chain, n, t) == Some(n) <==> StoredAt(chain, n, t))
    ensures k < n ==>
              (Source(chain, n, t) == Some(k) <==>
               Source(chain, n - 1, t) == Some(k) && !StoredAt(chain, n, t) && t in chain[n].tables)
  {
    if n > 0 {
      SourceBound(chain, n - 1, t);
    }
  }

  lemma KeptTables(entry: PlanEntry, changed: seq<Fqn>, all: seq<Fqn>, t: Fqn)
    requires NoDup(entry.tableFQNs)
    ensures var kept := KeptEntry(entry, Elems(changed), Elems(all));
            NoDup(kept.tableFQNs) && (t in kept.tableFQNs <==> t in entry.tableFQNs && t !in changed && t in all)
  {
    KeptAre(entry.tableFQNs, Elems(changed), Elems(all), |entry.tableFQNs|, t);
    VisitedAll(entry.tableFQNs);
  }

  lemma NewEntryLists(chain: seq<Backup>, plan: seq<PlanEntry>, n: nat, t: Fqn)
    requires ValidChain(chain) && n < |chain| && |plan| == n
    ensures ListsSource(chain, NextPlan(plan, Stored(chain, n), chain[n].tables, chain[n].timestamp), n, n, t)
  {
    StoredAre(chain, n, t);
    SourceStep(chain, n, n, t);
  }

  lemma OldEntryLists(chain: seq<Backup>, plan: seq<PlanEntry>, n: nat, k: nat, t: Fqn)
    requires ValidChain(chain) && k < n < |chain| && ListsSource(chain, plan, n - 1, k, t)
    ensures ListsSource(chain, NextPlan(plan, Stored(chain, n), chain[n].tables, chain[n].timestamp), n, k, t)
  {
    KeptTables(plan[k], Stored(chain, n), chain[n].tables, t);
    StoredAre(chain, n, t);
    SourceStep(chain, n, k, t);
  }

  /**
   * The plan of backup n has one entry for every backup of the chain, in order, and lists a table under exactly
   * the backup that is its source.
   */
  lemma {:induction false} PlanListsSources(chain: seq<Backup>, plans: seq<seq<PlanEntry>>, n: nat, k: nat, t: Fqn)
    requires ValidChain(chain) && PlansOf(chain, plans) && k <= n < |chain|
    ensures ListsSource(chain, plans[n], n, k, t)
    decreases n
  {
    assert PlanFollows(chain, plans, n);
    if n > 0 {
      PlanListsSources(chain, plans, n - 1, if k < n then k else 0, t);
    }
    if k < n {
      OldEntryLists(chain, plans[n - 1], n, k, t);
    } else {
      NewEntryLists(chain, if n == 0 then [] else plans[n - 1], n, t);
    }
  }

  lemma {:induction false} SourceBound(chain: seq<Backup>, n: nat, t: Fqn)
    requires n < |chain|
    ensures Source(chain, n, t).Some? ==> Source(chain, n, t).value <= n && t in chain[n].tables
  {
    if n > 0 {
      SourceBound(chain, n - 1, t);
    }
  }

  /** Since its source, a table has existed in every backup, and its entry there has been the one it has now. */
  lemma {:induction false} UnchangedSinceSource(chain: seq<Backup>, n: nat, t: Fqn, j: nat)
    requires n < |chain| && Source(chain, n, t).Some? && Source(chain, n, t).value <= j <= n
    ensures StoredAt(chain, Source(chain, n, t).value, t) && t in chain[j].tables
    ensures j > Source(chain, n, t).value ==> t in chain[j].ao
    ensures Source(chain, n, t).value < n ==> Lookup(chain[j].ao, t) == chain[n].ao[t]
    decreases n
  {
    SourceBound(chain, n, t);
    if n > 0 {
      SourceBound(chain, n - 1, t);
    }
    if Source(chain, n, t).value < n {
      if j < n {
        UnchangedSinceSource(chain, n - 1, t, j);
      } else {
        UnchangedSinceSource(chain, n - 1, t, n - 1);
      }
      UnchangedSinceSource(chain, n - 1, t, n - 1);
    }
  }

  // ----- When a plan covers all tables -----

  ghost predicate Covers(chain: seq<Backup>, n: nat)
    requires n < |chain|
  {
    forall t | t in chain[n].tables :: Source(chain, n, t).Some?
  }

  /** No table that was not there in the last backup looks like one that has not changed. */
  ghost predicate NoSilentSkip(chain: seq<Backup>, n: nat)
    requires n < |chain|
  {
    n == 0 || forall t | t in chain[n].tables && t !in chain[n - 1].tables :: Changed(chain[n - 1].ao, chain[n].ao, t)
  }

  /** A step of the chain keeps the plan complete if and only if it skips no new table. */
  lemma CoversIff(chain: seq<Backup>, n: nat)
    requires ValidChain(chain) && 0 < n < |chain| && Covers(chain, n - 1)
    ensures Covers(chain, n) <==> NoSilentSkip(chain, n)
  {
    if Covers(chain, n) {
      forall t | t in chain[n].tables && t !in chain[n - 1].tables
        ensures Changed(chain[n - 1].ao, chain[n].ao, t)
      {
        assert Source(chain, n, t).Some?;
        SourceBound(chain, n - 1, t);
      }
    }
  }

  lemma {:induction false} ChainCovers(chain: seq<Backup>, n: nat)
    requires ValidChain(chain) && n < |chain| && forall m | 0 < m <= n :: NoSilentSkip(chain, m)
    ensures Covers(chain, n)
  {
    if n > 0 {
      ChainCovers(chain, n - 1);
      assert NoSilentSkip(chain, n);
      CoversIff(chain, n);
    }
  }

  ghost predicate EntriesHaveTables(b: Backup) {
    forall t | t in b.ao :: t in b.tables
  }

  /** It is enough that no append-optimized table has the zero entry, and that only tables with data have entries. */
  lemma NonZeroEntriesSuffice(chain: seq<Backup>, n: nat)
    requires 0 < n < |chain|
    requires forall t | t in chain[n].tables && t in chain[n].ao :: chain[n].ao[t] != ZERO_ENTRY
    requires EntriesHaveTables(chain[n - 1])
    ensures NoSilentSkip(chain, n)
  {
  }

  /** A table whose entry is the one it had in the last backup is not stored again. */
  lemma UnchangedIsNotStored(chain: seq<Backup>, n: nat, t: Fqn)
    requires ValidChain(chain) && 0 < n < |chain|
    requires t in chain[n - 1].ao && t in chain[n].ao && chain[n].ao[t] == chain[n - 1].ao[t]
    ensures t !in Stored(chain, n) && Source(chain, n, t) != Some(n)
  {
    StoredAre(chain, n, t);
    SourceBound(chain, n - 1, t);
  }

  /** A new append-optimized table whose entry is the zero entry is in no entry of the plan. */
  lemma ZeroEntryIsLost(chain: seq<Backup>, plans: seq<seq<PlanEntry>>, t: Fqn, k: nat)
    requires |chain| == 2 && ValidChain(chain) && PlansOf(chain, plans) && k <= 1
    requires t !in chain[0].tables && t !in chain[0].ao
    requires t in chain[1].tables && t in chain[1].ao && chain[1].ao[t] == ZERO_ENTRY
    ensures !NoSilentSkip(chain, 1) && |plans[1]| == 2 && t !in plans[1][k].tableFQNs
  {
    PlanListsSources(chain, plans, 1, k, t);
    assert !Changed(chain[0].ao, chain[1].ao, t);
    assert Source(chain, 0, t) == None && Source(chain, 1, t) == None;
  }

  // ----- Restoring by the plan -----

  datatype DataEntry = DataEntry(schema: string, name: string, partitionRoot: string)

  /** An include or exclude set; always is set when it is built from an empty list of filters. */
  datatype FilterSet<T> = FilterSet(items: set<T>, isExclude: bool, always: bool)

  predicate MatchesFilter<T(==)>(f: FilterSet<T>, item: T) {
    f.always || (item in f.items) != f.isExclude
  }

  function FilterFrom<T(==)>(included: seq<T>, excluded: seq<T>): FilterSet<T> {
    if |included| > 0 then FilterSet(Elems(included), false, false)
    else if |excluded| > 0 then FilterSet(Elems(excluded), true, false)
    else FilterSet({}, false, true)
  }

  /** The leaf partitions of the tables named. */
  function LeafPartitions(tableFQNs: seq<Fqn>, entries: seq<DataEntry>, n: nat): seq<Fqn>
    requires n <= |entries|
  {
    if n == 0 then []
    else LeafPartitions(tableFQNs, entries, n - 1)
         + if entries[n - 1].partitionRoot != "" &&
           Fqn(entries[n - 1].schema, entries[n - 1].partitionRoot) in tableFQNs
           then [Fqn(entries[n - 1].schema, entries[n - 1].name)] else []
  }

  datatype Filters = Filters(includeSchemas: seq<string>, excludeSchemas: seq<string>, includeTables: seq<Fqn>,
                             excludeTables: seq<Fqn>)

  function TableFilter(filters: Filters, entries: seq<DataEntry>): FilterSet<Fqn> {
    if |filters.includeTables| > 0 then
      FilterFrom(filters.includeTables + LeafPartitions(filters.includeTables, entries, |entries|), [])
    else if |filters.excludeTables| > 0 then
      FilterFrom([], filters.excludeTables + LeafPartitions(filters.excludeTables, entries, |entries|))
    else
      FilterSet({}, false, true)
  }

  predicate Matches(filters: Filters, entries: seq<DataEntry>, planned: seq<Fqn>, e: DataEntry) {
    && Fqn(e.schema, e.name) in planned
    && MatchesFilter(FilterFrom(filters.includeSchemas, filters.excludeSchemas), e.schema)
    && MatchesFilter(TableFilter(filters, entries), Fqn(e.schema, e.name))
  }

  function MatchingEntries(filters: Filters, entries: seq<DataEntry>, planned: seq<Fqn>, n: nat): seq<DataEntry>
    requires n <= |entries|
  {
    if n == 0 then []
    else MatchingEntries(filters, entries, planned, n - 1) +
         if Matches(filters, entries, planned, entries[n - 1]) then [entries[n - 1]] else []
  }

  // ----- The selection in terms of the lists given -----

  /** The list names the table, or the root that some entry of that name is a leaf partition of. */
  ghost predicate NamedIn(entries: seq<DataEntry>, e: DataEntry, list: seq<Fqn>) {
    || Fqn(e.schema, e.name) in list
    || exists j :: 0 <= j < |entries| && LeafOf(entries[j], e, list)
  }

  ghost predicate LeafOf(leaf: DataEntry, e: DataEntry, list: seq<Fqn>) {
    && leaf.schema == e.schema && leaf.name == e.name
    && leaf.partitionRoot != "" && Fqn(leaf.schema, leaf.partitionRoot) in list
  }

  /** An include list that is not empty takes precedence over the exclude list. */
  ghost predicate Admitted(filters: Filters, entries: seq<DataEntry>, planned: seq<Fqn>, e: DataEntry) {
    && Fqn(e.schema, e.name) in planned
    && (if filters.includeSchemas != [] then e.schema in filters.includeSchemas
        else e.schema !in filters.excludeSchemas)
    && (if filters.includeTables != [] then NamedIn(entries, e, filters.includeTables)
        else !NamedIn(entries, e, filters.excludeTables))
  }

  /** The positions, below n, of the entries that are admitted. */
  ghost function AdmittedTo(filters: Filters, entries: seq<DataEntry>, planned: seq<Fqn>, n: nat): set<nat>
    requires n <= |entries|
  {
    set i | 0 <= i < n && Admitted(filters, entries, planned, entries[i])
  }

  lemma {:induction false} LeavesAre(list: seq<Fqn>, entries: seq<DataEntry>, n: nat, e: DataEntry)
    requires n <= |entries|
    ensures Fqn(e.schema, e.name) in LeafPartitions(list, entries, n) <==>
              exists j :: 0 <= j < n && LeafOf(entries[j], e, list)
  {
    if n > 0 {
      LeavesAre(list, entries, n - 1, e);
      if LeafOf(entries[n - 1], e, list) {
        assert Fqn(e.schema, e.name) in LeafPartitions(list, entries, n);
      }
    }
  }

  lemma MatchesIsAdmitted(filters: Filters, entries: seq<DataEntry>, planned: seq<Fqn>, e: DataEntry)
    ensures Matches(filters, entries, planned, e) <==> Admitted(filters, entries, planned, e)
  {
    LeavesAre(filters.includeTables, entries, |entries|, e);
    LeavesAre(filters.excludeTables, entries, |entries|, e);
  }

  lemma {:induction false} MatchingIsAdmitted(filters: Filters, entries: seq<DataEntry>, planned: seq<Fqn>, n: nat)
    requires n <= |entries|
    ensures TakesInOrder(entries, MatchingEntries(filters, entries, planned, n),
                         AdmittedTo(filters, entries, planned, n))
  {
    if n == 0 {
      TakeNone(entries);
      assert AdmittedTo(filters, entries, planned, 0) == {};
    } else {
      MatchingIsAdmitted(filters, entries, planned, n - 1);
      MatchesIsAdmitted(filters, entries, planned, entries[n - 1]);
      var wanted := AdmittedTo(filters, entries, planned, n - 1);
      if Admitted(filters, entries, planned, entries[n - 1]) {
        TakeOne(entries, MatchingEntries(filters, entries, planned, n - 1), wanted, n - 1);
        assert AdmittedTo(filters, entries, planned, n) == wanted + {n - 1};
      } else {
        assert AdmittedTo(filters, entries, planned, n) == wanted;
      }
    }
  }

  /** Where no two entries have the same name, an entry is named by itself or by its own partition root. */
  lemma NamedByItself(entries: seq<DataEntry>, i: nat, list: seq<Fqn>)
    requires i < |entries| && DistinctNames(entries)
    ensures NamedIn(entries, entries[i], list) <==>
              || Fqn(entries[i].schema, entries[i].name) in list
              || (entries[i].partitionRoot != "" && Fqn(entries[i].schema, entries[i].partitionRoot) in list)
  {
    forall j | 0 <= j < |entries| && LeafOf(entries[j], entries[i], list)
      ensures j == i
    {
      assert NameOf(entries[j]) == NameOf(entries[i]);
    }
  }

  method GetDataEntriesMatching(filters: Filters, entries: seq<DataEntry>, planned: seq<Fqn>)
    returns (matching: seq<DataEntry>)
    ensures matching == MatchingEntries(filters, entries, planned, |entries|)
    ensures TakesInOrder(entries, matching, AdmittedTo(filters, entries, planned, |entries|))
  {
    MatchingIsAdmitted(filters, entries, planned, |entries|);
    var schemaSet := FilterFrom(filters.includeSchemas, filters.excludeSchemas);
    var tableSet := TableFilter(filters, entries);
    matching := [];
    for i := 0 to |entries|
      invariant matching == MatchingEntries(filters, entries, planned, i)
    {
      var fqn := Fqn(entries[i].schema, entries[i].name);
      if fqn in planned && MatchesFilter(schemaSet, entries[i].schema) && MatchesFilter(tableSet, fqn) {
        matching := matching + [entries[i]];
      }
    }
  }

  lemma {:induction false} MatchingAre(filters: Filters, entries: seq<DataEntry>, planned: seq<Fqn>, n: nat,
                                       e: DataEntry)
    requires n <= |entries|
    ensures e in MatchingEntries(filters, entries, planned, n) <==>
            e in Visited(entries, n) && Matches(filters, entries, planned, e)
    ensures NoDup(entries) ==> NoDup(MatchingEntries(filters, entries, planned, n))
  {
    if n > 0 {
      MatchingAre(filters, entries, planned, n - 1, e);
      VisitOne(entries, n - 1);
      if NoDup(entries) {
        MatchingAre(filters, entries, planned, n - 1, entries[n - 1]);
      }
    }
  }

  function NameOf(e: DataEntry): Fqn {
    Fqn(e.schema, e.name)
  }

  /** A backup's table of contents has one entry for each table stored, in order. */
  ghost predicate Records(entries: seq<DataEntry>, stored: seq<Fqn>) {
    |entries| == |stored| && forall i | 0 <= i < |entries| :: NameOf(entries[i]) == stored[i]
  }

  ghost predicate DistinctNames(entries: seq<DataEntry>) {
    forall i, j | 0 <= i < j < |entries| :: NameOf(entries[i]) != NameOf(entries[j])
  }

  ghost predicate TocsOf(chain: seq<Backup>, tocs: seq<seq<DataEntry>>) {
    |tocs| == |chain| && forall k | 0 <= k < |tocs| :: Records(tocs[k], Stored(chain, k))
  }

  /** What a restore without filters takes from a backup's table of contents. */
  function Picked(entries: seq<DataEntry>, planned: seq<Fqn>): seq<DataEntry> {
    MatchingEntries(Filters([], [], [], []), entries, planned, |entries|)
  }

  /** The j-th entry that a restore by the plan of backup n takes from backup k is that of table t. */
  ghost predicate PickedAt(plans: seq<seq<PlanEntry>>, tocs: seq<seq<DataEntry>>, n: nat, k: nat, j: nat, t: Fqn) {
    && n < |plans| && k < |plans[n]| && k < |tocs|
    && var picked := Picked(tocs[k], plans[n][k].tableFQNs);
       j < |picked| && NameOf(picked[j]) == t
  }

  lemma {:induction false} MatchingNames(filters: Filters, entries: seq<DataEntry>, planned: seq<Fqn>, n: nat)
    requires n <= |entries| && DistinctNames(entries)
    ensures DistinctNames(MatchingEntries(filters, entries, planned, n))
  {
    if n > 0 {
      MatchingNames(filters, entries, planned, n - 1);
      var before := MatchingEntries(filters, entries, planned, n - 1);
      forall i | 0 <= i < |before|
        ensures NameOf(before[i]) != NameOf(entries[n - 1])
      {
        MatchingAre(filters, entries, planned, n - 1, before[i]);
      }
    }
  }

  /** A table is taken from backup k exactly if that is its source, and then once. */
  lemma PickedFromSource(chain: seq<Backup>, plans: seq<seq<PlanEntry>>, tocs: seq<seq<DataEntry>>, n: nat, k: nat,
                         t: Fqn)
    requires ValidChain(chain) && PlansOf(chain, plans) && TocsOf(chain, tocs) && k <= n < |chain|
    ensures |plans[n]| == n + 1 && DistinctNames(Picked(tocs[k], plans[n][k].tableFQNs))
    ensures (exists j: nat :: PickedAt(plans, tocs, n, k, j, t)) <==> Source(chain, n, t) == Some(k)
  {
    var stored, entries := Stored(chain, k), tocs[k];
    PlanListsSources(chain, plans, n, k, t);
    assert Records(entries, stored);
    StoredAre(chain, k, t);
    var planned := plans[n][k].tableFQNs;
    MatchingNames(Filters([], [], [], []), entries, planned, |entries|);
    VisitedAll(entries);
    var picked := Picked(entries, planned);
    if Source(chain, n, t) == Some(k) {
      UnchangedSinceSource(chain, n, t, k);
      var i :| 0 <= i < |stored| && stored[i] == t;
      MatchingAre(Filters([], [], [], []), entries, planned, |entries|, entries[i]);
      assert entries[i] in picked;
      var j: nat :| j < |picked| && picked[j] == entries[i];
      assert PickedAt(plans, tocs, n, k, j, t);
    }
    if j: nat :| PickedAt(plans, tocs, n, k, j, t) {
      MatchingAre(Filters([], [], [], []), entries, planned, |entries|, picked[j]);
    }
  }

  /**
   * Over all backups of the chain, a restore by the plan of backup n without filters takes every table that has a
   * source exactly once, from its source, and nothing else.
   */
  lemma RestoredFromSource(chain: seq<Backup>, plans: seq<seq<PlanEntry>>, tocs: seq<seq<DataEntry>>, n: nat, t: Fqn)
    requires ValidChain(chain) && PlansOf(chain, plans) && TocsOf(chain, tocs) && n < |chain|
    ensures (exists k: nat, j: nat :: PickedAt(plans, tocs, n, k, j, t)) <==> Source(chain, n, t).Some?
    ensures forall k: nat, j: nat | PickedAt(plans, tocs, n, k, j, t) :: Source(chain, n, t) == Some(k)
    ensures forall k: nat, j: nat, j': nat | PickedAt(plans, tocs, n, k, j, t) && PickedAt(plans, tocs, n, k, j', t) ::
              j == j'
  {
    PlanListsSources(chain, plans, n, n, t);
    forall k: nat, j: nat | PickedAt(plans, tocs, n, k, j, t)
      ensures Source(chain, n, t) == Some(k)
    {
      PickedFromSource(chain, plans, tocs, n, k, t);
    }
    forall k: nat, j: nat, j': nat | PickedAt(plans, tocs, n, k, j, t) && PickedAt(plans, tocs, n, k, j', t)
      ensures j == j'
    {
      PickedFromSource(chain, plans, tocs, n, k, t);
    }
    if Source(chain, n, t).Some? {
      SourceBound(chain, n, t);
      PickedFromSource(chain, plans, tocs, n, Source(chain, n, t).value, t);
    }
  }

  /** So it restores the current tables, each exactly once, if and only if the plan covers them. */
  lemma RestoresAllIffCovers(chain: seq<Backup>, plans: seq<seq<PlanEntry>>, tocs: seq<seq<DataEntry>>, n: nat)
    requires ValidChain(chain) && PlansOf(chain, plans) && TocsOf(chain, tocs) && n < |chain|
    ensures (forall t | t in chain[n].tables :: exists k: nat, j: nat :: PickedAt(plans, tocs, n, k, j, t)) <==>
              Covers(chain, n)
    ensures forall t, k: nat, j: nat | PickedAt(plans, tocs, n, k, j, t) :: t in chain[n].tables
  {
    forall t
      ensures (exists k: nat, j: nat :: PickedAt(plans, tocs, n, k, j, t)) <==> Source(chain, n, t).Some?
      ensures Source(chain, n, t).Some? ==> t in chain[n].tables
    {
      RestoredFromSource(chain, plans, tocs, n, t);
    }
  }
}

/** Batching pre-data statements into tiers, and splitting a tier over connections by cohort. */
module StatementSchedule {
  import opened Collections

  /** A metadata statement; tier is empty in old backups and otherwise holds depth and cohort. */
  datatype Statement = Statement(name: string, text: string, tier: seq<nat>)

  function Normalize(s: Statement): Statement {
    if |s.tier| == 0 then s.(tier := [0, 0]) else s
  }

  function Normalized(statements: seq<Statement>): (r: seq<Statement>)
    ensures |r| == |statements|
    ensures forall i | 0 <= i < |r| :: r[i] == Normalize(statements[i])
  {
    seq(|statements|, i requires 0 <= i < |statements| => Normalize(statements[i]))
  }

  function Depth(s: Statement): nat {
    if |s.tier| == 0 then 0 else s.tier[0]
  }

  function Cohort(s: Statement): nat {
    if |s.tier| < 2 then 0 else s.tier[1]
  }

  // The three groups a list of statements falls into, each in file order.

  function OfTier(statements: seq<Statement>, t: nat): seq<Statement> {
    if statements == [] then []
    else
      var n := |statements| - 1;
      OfTier(statements[..n], t) + if Depth(statements[n]) == t then [statements[n]] else []
  }

  ghost predicate HasNumbered(statements: seq<Statement>) {
    exists i :: 0 <= i < |statements| && Depth(statements[i]) > 0
  }

  ghost function LeadingZero(statements: seq<Statement>): seq<Statement> {
    if statements == [] then []
    else
      var n := |statements| - 1;
      LeadingZero(statements[..n]) +
      if Depth(statements[n]) == 0 && !HasNumbered(statements[..n]) then [statements[n]] else []
  }

  ghost function TrailingZero(statements: seq<Statement>): seq<Statement> {
    if statements == [] then []
    else
      var n := |statements| - 1;
      TrailingZero(statements[..n]) +
      if Depth(statements[n]) == 0 && HasNumbered(statements[..n]) then [statements[n]] else []
  }

  ghost function Depths(statements: seq<Statement>): set<nat> {
    set i | 0 <= i < |statements| && Depth(statements[i]) > 0 :: Depth(statements[i])
  }

  lemma TakeSnoc<T>(s: seq<T>, i: nat)
    requires i < |s|
    ensures s[..i + 1][..i] == s[..i] && s[..i + 1][i] == s[i] && s[..i + 1] == s[..i] + [s[i]]
  {
  }

  function TierOf(tiers: map<nat, seq<Statement>>, t: nat): seq<Statement> {
    if t in tiers then tiers[t] else []
  }

  /** The three groups after i statements. */
  ghost predicate BatchedTo(all: seq<Statement>, i: nat, first: seq<Statement>, tiers: map<nat, seq<Statement>>,
                            last: seq<Statement>)
    requires i <= |all|
  {
    && first == LeadingZero(all[..i])
    && last == TrailingZero(all[..i])
    && tiers.Keys == Depths(all[..i])
    && forall t: nat | t > 0 :: TierOf(tiers, t) == OfTier(all[..i], t)
  }

  lemma NumberedSnoc(all: seq<Statement>, i: nat)
    requires i < |all|
    ensures HasNumbered(all[..i + 1]) <==> HasNumbered(all[..i]) || Depth(all[i]) > 0
    ensures Depths(all[..i + 1]) == Depths(all[..i]) + if Depth(all[i]) > 0 then {Depth(all[i])} else {}
  {
  }

  lemma BatchStep(all: seq<Statement>, i: nat, first: seq<Statement>, tiers: map<nat, seq<Statement>>,
                  last: seq<Statement>)
    requires i < |all| && BatchedTo(all, i, first, tiers, last)
    ensures Depth(all[i]) > 0 ==>
      BatchedTo(all, i + 1, first, tiers[Depth(all[i]) := TierOf(tiers, Depth(all[i])) + [all[i]]], last)
    ensures Depth(all[i]) == 0 && !HasNumbered(all[..i]) ==> BatchedTo(all, i + 1, first + [all[i]], tiers, last)
    ensures Depth(all[i]) == 0 && HasNumbered(all[..i]) ==> BatchedTo(all, i + 1, first, tiers, last + [all[i]])
  {
    TakeSnoc(all, i);
    NumberedSnoc(all, i);
    var d := Depth(all[i]);
    var tiers' := if d > 0 then tiers[d := TierOf(tiers, d) + [all[i]]] else tiers;
    forall t: nat | t > 0
      ensures TierOf(tiers', t) == OfTier(all[..i + 1], t)
    {
      assert TierOf(tiers, t) == OfTier(all[..i], t);
    }
  }

  // ----- The groups in terms of the list as it is -----

  ghost predicate PositiveAt(all: seq<Statement>, i: nat)
    requires i < |all|
  {
    |all[i].tier| > 0 && all[i].tier[0] > 0
  }

  ghost predicate PositiveBefore(all: seq<Statement>, i: nat)
    requires i <= |all|
  {
    exists j :: 0 <= j < i && PositiveAt(all, j)
  }

  /** The positions, below n, of statements without a positive tier and with none before them. */
  ghost function Leading(all: seq<Statement>, n: nat): set<nat>
    requires n <= |all|
  {
    set i | 0 <= i < n && !PositiveAt(all, i) && !PositiveBefore(all, i)
  }

  /** The positions, below n, of statements without a positive tier that come after one with a positive tier. */
  ghost function Trailing(all: seq<Statement>, n: nat): set<nat>
    requires n <= |all|
  {
    set i | 0 <= i < n && !PositiveAt(all, i) && PositiveBefore(all, i)
  }

  /** The positions, below n, of the statements of tier t. */
  ghost function InTier(all: seq<Statement>, n: nat, t: nat): set<nat>
    requires n <= |all|
  {
    set i | 0 <= i < n && |all[i].tier| > 0 && all[i].tier[0] == t
  }

  /** A statement as it is scheduled: one without a tier gets tier and cohort 0. */
  ghost predicate PickedAs(s: Statement, p: Statement) {
    p.name == s.name && p.text == s.text && p.tier == if |s.tier| == 0 then [0, 0] else s.tier
  }

  /** picked are the statements at the wanted positions, in file order. */
  ghost predicate Picks(all: seq<Statement>, picked: seq<Statement>, wanted: set<nat>) {
    exists idx :: ListsIndices(idx, wanted) && |idx| == |picked| && PickedAt(all, picked, idx)
  }

  ghost predicate PickedAt(all: seq<Statement>, picked: seq<Statement>, idx: seq<nat>)
    requires |idx| == |picked|
  {
    forall k | 0 <= k < |idx| :: idx[k] < |all| && PickedAs(all[idx[k]], picked[k])
  }

  lemma PickNone(all: seq<Statement>)
    ensures Picks(all, [], {})
  {
    assert ListsIndices([], {}) && PickedAt(all, [], []);
  }

  lemma PickOneMore(all: seq<Statement>, picked: seq<Statement>, wanted: set<nat>, n: nat, p: Statement)
    requires Picks(all, picked, wanted) && n < |all| && PickedAs(all[n], p)
    requires forall i | i in wanted :: i < n
    ensures Picks(all, picked + [p], wanted + {n})
  {
    var idx :| ListsIndices(idx, wanted) && |idx| == |picked| && PickedAt(all, picked, idx);
    OneIndexMore(idx, wanted, n);
    assert PickedAt(all, picked + [p], idx + [n]);
  }

  lemma NormalizedAt(statements: seq<Statement>, i: nat)
    requires i < |statements|
    ensures PickedAs(statements[i], Normalized(statements)[i])
    ensures Depth(Normalized(statements)[i]) == if |statements[i].tier| > 0 then statements[i].tier[0] else 0
  {
  }

  lemma NumberedIsPositive(statements: seq<Statement>, n: nat)
    requires n <= |statements|
    ensures HasNumbered(Normalized(statements)[..n]) <==> PositiveBefore(statements, n)
  {
    var all := Normalized(statements);
    forall i | 0 <= i < n
      ensures Depth(all[..n][i]) > 0 <==> PositiveAt(statements, i)
    {
      NormalizedAt(statements, i);
    }
  }

  lemma GroupsSnoc(all: seq<Statement>, n: nat, t: nat)
    requires n < |all|
    ensures LeadingZero(all[..n + 1]) ==
            LeadingZero(all[..n]) + if Depth(all[n]) == 0 && !HasNumbered(all[..n]) then [all[n]] else []
    ensures TrailingZero(all[..n + 1]) ==
            TrailingZero(all[..n]) + if Depth(all[n]) == 0 && HasNumbered(all[..n]) then [all[n]] else []
    ensures OfTier(all[..n + 1], t) == OfTier(all[..n], t) + if Depth(all[n]) == t then [all[n]] else []
  {
    TakeSnoc(all, n);
  }

  /** The groups of the first n statements are picked at the positions below n. */
  ghost predicate PickedTo(statements: seq<Statement>, n: nat, t: nat)
    requires n <= |statements|
  {
    var all := Normalized(statements)[..n];
    && Picks(statements, LeadingZero(all), Leading(statements, n))
    && Picks(statements, TrailingZero(all), Trailing(statements, n))
    && Picks(statements, OfTier(all, t), InTier(statements, n, t))
  }

  lemma PositionsSnoc(statements: seq<Statement>, n: nat, t: nat)
    requires n < |statements|
    ensures Leading(statements, n + 1) ==
            Leading(statements, n) +
            if !PositiveAt(statements, n) && !PositiveBefore(statements, n) then {n} else {}
    ensures Trailing(statements, n + 1) ==
            Trailing(statements, n) +
            if !PositiveAt(statements, n) && PositiveBefore(statements, n) then {n} else {}
    ensures InTier(statements, n + 1, t) ==
            InTier(statements, n, t) +
            if |statements[n].tier| > 0 && statements[n].tier[0] == t then {n} else {}
  {
  }

  /** One more statement, which belongs to the group if its position is wanted. */
  lemma PickNext(statements: seq<Statement>, picked: seq<Statement>, wanted: set<nat>, n: nat, p: Statement,
                 belongs: bool)
    requires Picks(statements, picked, wanted) && n < |statements| && PickedAs(statements[n], p)
    requires forall i | i in wanted :: i < n
    ensures Picks(statements, picked + if belongs then [p] else [], wanted + if belongs then {n} else {})
  {
    if belongs {
      PickOneMore(statements, picked, wanted, n, p);
    } else {
      assert picked + [] == picked && wanted + {} == wanted;
    }
  }

  lemma LeadingStep(statements: seq<Statement>, n: nat)
    requires n < |statements| && Picks(statements, LeadingZero(Normalized(statements)[..n]), Leading(statements, n))
    ensures Picks(statements, LeadingZero(Normalized(statements)[..n + 1]), Leading(statements, n + 1))
  {
    var all := Normalized(statements);
    GroupsSnoc(all, n, 0);
    PositionsSnoc(statements, n, 0);
    NormalizedAt(statements, n);
    NumberedIsPositive(statements, n);
    var leads := !PositiveAt(statements, n) && !PositiveBefore(statements, n);
    PickNext(statements, LeadingZero(all[..n]), Leading(statements, n), n, all[n], leads);
  }

  lemma TrailingStep(statements: seq<Statement>, n: nat)
    requires n < |statements| && Picks(statements, TrailingZero(Normalized(statements)[..n]), Trailing(statements, n))
    ensures Picks(statements, TrailingZero(Normalized(statements)[..n + 1]), Trailing(statements, n + 1))
  {
    var all := Normalized(statements);
    GroupsSnoc(all, n, 0);
    PositionsSnoc(statements, n, 0);
    NormalizedAt(statements, n);
    NumberedIsPositive(statements, n);
    var trails := !PositiveAt(statements, n) && PositiveBefore(statements, n);
    PickNext(statements, TrailingZero(all[..n]), Trailing(statements, n), n, all[n], trails);
  }

  lemma OfTierStep(statements: seq<Statement>, n: nat, t: nat)
    requires n < |statements| && t > 0
    requires Picks(statements, OfTier(Normalized(statements)[..n], t), InTier(statements, n, t))
    ensures Picks(statements, OfTier(Normalized(statements)[..n + 1], t), InTier(statements, n + 1, t))
  {
    var all := Normalized(statements);
    GroupsSnoc(all, n, t);
    PositionsSnoc(statements, n, t);
    NormalizedAt(statements, n);
    PickNext(statements, OfTier(all[..n], t), InTier(statements, n, t), n, all[n], Depth(all[n]) == t);
  }

  lemma NothingPicked(statements: seq<Statement>, t: nat)
    ensures PickedTo(statements, 0, t)
  {
    assert Normalized(statements)[..0] == [];
    PickNone(statements);
    assert Leading(statements, 0) == {} && Trailing(statements, 0) == {} && InTier(statements, 0, t) == {};
  }

  lemma GroupsStep(statements: seq<Statement>, n: nat, t: nat)
    requires n < |statements| && t > 0 && PickedTo(statements, n, t)
    ensures PickedTo(statements, n + 1, t)
  {
    LeadingStep(statements, n);
    TrailingStep(statements, n);
    OfTierStep(statements, n, t);
  }

  lemma {:induction false} GroupsPickedTo(statements: seq<Statement>, n: nat, t: nat)
    requires n <= |statements| && t > 0
    ensures PickedTo(statements, n, t)
  {
    if n == 0 {
      NothingPicked(statements, t);
    } else {
      GroupsPickedTo(statements, n - 1, t);
      GroupsStep(statements, n - 1, t);
    }
  }

  /** The three groups of the list, and which tiers there are. */
  lemma GroupsArePicked(statements: seq<Statement>)
    ensures Picks(statements, LeadingZero(Normalized(statements)), Leading(statements, |statements|))
    ensures Picks(statements, TrailingZero(Normalized(statements)), Trailing(statements, |statements|))
    ensures forall t: nat | t > 0 ::
              Picks(statements, OfTier(Normalized(statements), t), InTier(statements, |statements|, t))
    ensures forall t: nat :: t in Depths(Normalized(statements)) <==>
              t > 0 && InTier(statements, |statements|, t) != {}
  {
    var all := Normalized(statements);
    assert all[..|statements|] == all;
    GroupsPickedTo(statements, |statements|, 1);
    forall t: nat | t > 0
      ensures Picks(statements, OfTier(all, t), InTier(statements, |statements|, t))
    {
      GroupsPickedTo(statements, |statements|, t);
    }
    forall t: nat
      ensures t in Depths(all) <==> t > 0 && InTier(statements, |statements|, t) != {}
    {
      DepthInList(statements, t);
    }
  }

  lemma DepthInList(statements: seq<Statement>, t: nat)
    ensures t in Depths(Normalized(statements)) <==> t > 0 && InTier(statements, |statements|, t) != {}
  {
    var all := Normalized(statements);
    if t in Depths(all) {
      var i :| 0 <= i < |all| && Depth(all[i]) == t && t > 0;
      assert i in InTier(statements, |statements|, t);
    }
    if t > 0 && InTier(statements, |statements|, t) != {} {
      var i :| i in InTier(statements, |statements|, t);
      assert Depth(all[i]) == t;
    }
  }

  /** Splits statements at the first numbered tier; untiered statements count as tier 0. */
  method BatchPredataStatements(statements: seq<Statement>)
    returns (firstTierZero: seq<Statement>, numberedTiers: map<nat, seq<Statement>>, secondTierZero: seq<Statement>)
    ensures firstTierZero == LeadingZero(Normalized(statements))
    ensures secondTierZero == TrailingZero(Normalized(statements))
    ensures numberedTiers.Keys == Depths(Normalized(statements))
    ensures forall t | t in numberedTiers :: numberedTiers[t] == OfTier(Normalized(statements), t)
    ensures Picks(statements, firstTierZero, Leading(statements, |statements|))
    ensures Picks(statements, secondTierZero, Trailing(statements, |statements|))
    ensures forall t: nat :: t in numberedTiers <==> t > 0 && InTier(statements, |statements|, t) != {}
    ensures forall t | t in numberedTiers :: Picks(statements, numberedTiers[t], InTier(statements, |statements|, t))
  {
    GroupsArePicked(statements);
    var foundNumberedTier := false;
    firstTierZero, numberedTiers, secondTierZero := [], map[], [];
    ghost var all := Normalized(statements);
    var i := 0;
    while i < |statements|
      invariant 0 <= i <= |statements|
      invariant foundNumberedTier == HasNumbered(all[..i])
      invariant BatchedTo(all, i, firstTierZero, numberedTiers, secondTierZero)
    {
      var statement := Normalize(statements[i]);
      BatchStep(all, i, firstTierZero, numberedTiers, secondTierZero);
      NumberedSnoc(all, i);
      if statement.tier[0] > 0 {
        foundNumberedTier := true;
        var t := statement.tier[0];
        numberedTiers := numberedTiers[t := TierOf(numberedTiers, t) + [statement]];
      } else if !foundNumberedTier {
        firstTierZero := firstTierZero + [statement];
      } else {
        secondTierZero := secondTierZero + [statement];
      }
      i := i + 1;
    }
    assert all[..i] == all;
    forall t | t in numberedTiers
      ensures numberedTiers[t] == OfTier(all, t)
    {
      assert TierOf(numberedTiers, t) == OfTier(all[..i], t);
    }
  }

  /** The connection has the fewest statements, and fewer than connection 1 unless it is that one. */
  predicate LeastBusy(counts: map<nat, nat>, conn: nat)
    requires 1 in counts
  {
    && conn in counts && (forall c | c in counts :: counts[conn] <= counts[c])
    && (conn != 1 ==> counts[conn] < counts[1])
  }

  /** The scan starts at connection 1, so that one wins every tie; among the others the map order decides. */
  method FindLeastBusyConn(connStatementCounts: map<nat, nat>) returns (leastBusyConn: nat)
    requires 1 in connStatementCounts
    ensures LeastBusy(connStatementCounts, leastBusyConn)
  {
    var minStatements := connStatementCounts[1];
    leastBusyConn := 1;
    var rest := connStatementCounts.Keys;
    while rest != {}
      invariant rest <= connStatementCounts.Keys
      invariant leastBusyConn in connStatementCounts && minStatements == connStatementCounts[leastBusyConn]
      invariant leastBusyConn != 1 ==> minStatements < connStatementCounts[1]
      invariant minStatements <= connStatementCounts[1]
      invariant forall c | c in connStatementCounts && c !in rest :: minStatements <= connStatementCounts[c]
    {
      var conn :| conn in rest;
      if connStatementCounts[conn] < minStatements {
        leastBusyConn := conn;
        minStatements := connStatementCounts[conn];
      }
      rest := rest - {conn};
    }
  }

  /** What the scan has chosen after the first n connections of some order. */
  function Scan(counts: map<nat, nat>, order: seq<nat>, n: nat): (least: nat)
    requires 1 in counts && n <= |order| && forall c | c in order :: c in counts
    ensures least in counts
  {
    if n == 0 then 1
    else
      var least := Scan(counts, order, n - 1);
      if counts[order[n - 1]] < counts[least] then order[n - 1] else least
  }

  /** Every connection that qualifies is chosen in some order of the map. */
  lemma EveryLeastBusyCanBeChosen(counts: map<nat, nat>, conn: nat) returns (order: seq<nat>)
    requires 1 in counts && LeastBusy(counts, conn)
    ensures Lists(order, counts.Keys) && (forall c | c in order :: c in counts) && Scan(counts, order, |order|) == conn
  {
    var others := Listing(counts.Keys - {conn});
    order := [conn] + others;
    forall i, j | 0 <= i < j < |order|
      ensures order[i] != order[j]
    {
      assert order[j] in Elems(others);
    }
    assert Elems(order) == {conn} + Elems(others);
    forall c | c in order
      ensures c in counts
    {
      assert c in Elems(order);
    }
    ScanStays(counts, order, |order|);
  }

  lemma {:induction false} ScanStays(counts: map<nat, nat>, order: seq<nat>, n: nat)
    requires 1 in counts && 0 < n <= |order| && (forall c | c in order :: c in counts) && LeastBusy(counts, order[0])
    ensures Scan(counts, order, n) == order[0]
  {
    if n == 1 {
      assert Scan(counts, order, 0) == 1;
    } else {
      ScanStays(counts, order, n - 1);
      assert order[n - 1] in order;
    }
  }

  /** The statements whose cohort is pinned to connection c, in file order. */
  ghost function OnConn(statements: seq<Statement>, pins: map<nat, nat>, c: nat): seq<Statement> {
    if statements == [] then []
    else
      var n := |statements| - 1;
      var k := Cohort(statements[n]);
      OnConn(statements[..n], pins, c) + if k in pins && pins[k] == c then [statements[n]] else []
  }

  ghost function Load(statements: seq<Statement>, pins: map<nat, nat>, c: nat): nat {
    |OnConn(statements, pins, c)|
  }

  ghost function CohortsIn(statements: seq<Statement>): set<nat> {
    set i | 0 <= i < |statements| :: Cohort(statements[i])
  }

  function Lane(split: map<nat, seq<Statement>>, c: nat): seq<Statement> {
    if c in split then split[c] else []
  }

  /** Statement i is the first of its cohort. */
  ghost predicate OpensCohort(statements: seq<Statement>, i: nat)
    requires i < |statements|
  {
    Cohort(statements[i]) !in CohortsIn(statements[..i])
  }

  /** The connection has the fewest of the statements, and fewer than connection 1 unless it is that one. */
  ghost predicate LeastLoaded(statements: seq<Statement>, numConns: nat, pins: map<nat, nat>, conn: nat) {
    && (forall c: nat | c < numConns :: Load(statements, pins, conn) <= Load(statements, pins, c))
    && (conn != 1 ==> Load(statements, pins, conn) < Load(statements, pins, 1))
  }

  /** When its cohort was pinned at statement i, the connection was least loaded. */
  ghost predicate PinnedToLeastBusy(statements: seq<Statement>, numConns: nat, pins: map<nat, nat>, i: nat)
    requires i < |statements|
  {
    var k := Cohort(statements[i]);
    k in pins && LeastLoaded(statements[..i], numConns, pins, pins[k])
  }

  ghost predicate Scheduled(statements: seq<Statement>, numConns: nat, split: map<nat, seq<Statement>>,
                            pins: map<nat, nat>) {
    && pins.Keys == CohortsIn(statements)
    && InRange(split, pins, numConns)
    && Lanes(statements, split, pins)
    && AllPinnedToLeastBusy(statements, numConns, pins, |statements|)
  }

  lemma {:induction false} OnConnFrame(statements: seq<Statement>, pins: map<nat, nat>, k: nat, conn: nat, c: nat)
    requires k !in CohortsIn(statements)
    ensures OnConn(statements, pins[k := conn], c) == OnConn(statements, pins, c)
  {
    if statements != [] {
      var n := |statements| - 1;
      forall i | 0 <= i < n
        ensures Cohort(statements[..n][i]) in CohortsIn(statements)
      {
        assert statements[..n][i] == statements[i];
      }
      OnConnFrame(statements[..n], pins, k, conn, c);
      assert Cohort(statements[n]) in CohortsIn(statements);
    }
  }

  lemma CohortsSnoc(statements: seq<Statement>, i: nat)
    requires i < |statements|
    ensures CohortsIn(statements[..i + 1]) == CohortsIn(statements[..i]) + {Cohort(statements[i])}
    ensures CohortsIn(statements[..i]) <= CohortsIn(statements)
  {
  }

  lemma PinKeepsLeastBusy(statements: seq<Statement>, numConns: nat, pins: map<nat, nat>, i: nat, k: nat, conn: nat)
    requires i < |statements| && k !in CohortsIn(statements[..i]) && k != Cohort(statements[i])
    requires PinnedToLeastBusy(statements, numConns, pins, i)
    ensures PinnedToLeastBusy(statements, numConns, pins[k := conn], i)
  {
    PinKeepsLeastLoaded(statements[..i], numConns, pins, pins[Cohort(statements[i])], k, conn);
  }

  lemma PinKeepsLeastLoaded(done: seq<Statement>, numConns: nat, pins: map<nat, nat>, own: nat, k: nat, conn: nat)
    requires k !in CohortsIn(done) && LeastLoaded(done, numConns, pins, own)
    ensures LeastLoaded(done, numConns, pins[k := conn], own)
  {
    var pins' := pins[k := conn];
    OnConnFrame(done, pins, k, conn, own);
    OnConnFrame(done, pins, k, conn, 1);
    forall c: nat | c < numConns
      ensures Load(done, pins', own) <= Load(done, pins', c)
    {
      OnConnFrame(done, pins, k, conn, c);
      assert Load(done, pins, own) <= Load(done, pins, c);
    }
  }

  ghost predicate AllPinnedToLeastBusy(statements: seq<Statement>, numConns: nat, pins: map<nat, nat>, n: nat)
    requires n <= |statements|
  {
    forall j | 0 <= j < n && OpensCohort(statements, j) :: PinnedToLeastBusy(statements, numConns, pins, j)
  }

  ghost predicate Lanes(statements: seq<Statement>, split: map<nat, seq<Statement>>, pins: map<nat, nat>) {
    forall c: nat :: Lane(split, c) == OnConn(statements, pins, c)
  }

  ghost predicate CountsLanes(split: map<nat, seq<Statement>>, counts: map<nat, nat>, numConns: nat) {
    && (forall c: nat :: c in counts <==> c < numConns)
    && (forall c | c in counts :: counts[c] == |Lane(split, c)|)
  }

  ghost predicate InRange(split: map<nat, seq<Statement>>, pins: map<nat, nat>, numConns: nat) {
    && (forall k | k in pins :: pins[k] < numConns)
    && (forall c | c in split :: c < numConns)
  }

  /** The state of the scheduling loop when some statements are done. */
  ghost predicate ScheduledFor(done: seq<Statement>, numConns: nat, split: map<nat, seq<Statement>>,
                               pins: map<nat, nat>, counts: map<nat, nat>) {
    && pins.Keys == CohortsIn(done)
    && InRange(split, pins, numConns)
    && Lanes(done, split, pins)
    && CountsLanes(split, counts, numConns)
  }

  /** The state when the next statement has its connection and is about to be appended to its lane. */
  ghost predicate PinnedFor(done: seq<Statement>, s: Statement, numConns: nat,
                            split: map<nat, seq<Statement>>, pins: map<nat, nat>, counts: map<nat, nat>) {
    && pins.Keys == CohortsIn(done) + {Cohort(s)}
    && InRange(split, pins, numConns)
    && Lanes(done, split, pins)
    && CountsLanes(split, counts, numConns)
  }

  /** Pinning a cohort that has no statement yet changes no lane. */
  lemma NewPinKeepsLanes(statements: seq<Statement>, split: map<nat, seq<Statement>>, pins: map<nat, nat>, k: nat,
                         conn: nat)
    requires Lanes(statements, split, pins) && k !in CohortsIn(statements)
    ensures Lanes(statements, split, pins[k := conn])
  {
    forall c: nat
      ensures Lane(split, c) == OnConn(statements, pins[k := conn], c)
    {
      OnConnFrame(statements, pins, k, conn, c);
      assert Lane(split, c) == OnConn(statements, pins, c);
    }
  }

  lemma LeastBusyByLanes(done: seq<Statement>, numConns: nat, split: map<nat, seq<Statement>>, pins: map<nat, nat>,
                         counts: map<nat, nat>, conn: nat)
    requires numConns >= 2 && Lanes(done, split, pins) && CountsLanes(split, counts, numConns) &&
             LeastBusy(counts, conn)
    ensures LeastLoaded(done, numConns, pins, conn)
  {
    forall c: nat | c < numConns
      ensures Load(done, pins, c) == counts[c]
    {
      assert c in counts && Lane(split, c) == OnConn(done, pins, c);
    }
  }

  lemma OnePinMore(statements: seq<Statement>, numConns: nat, pins: map<nat, nat>, n: nat)
    requires n < |statements| && AllPinnedToLeastBusy(statements, numConns, pins, n)
    requires OpensCohort(statements, n) ==> PinnedToLeastBusy(statements, numConns, pins, n)
    ensures AllPinnedToLeastBusy(statements, numConns, pins, n + 1)
  {
  }

  lemma PinNew(done: seq<Statement>, s: Statement, numConns: nat,
               split: map<nat, seq<Statement>>, pins: map<nat, nat>, counts: map<nat, nat>, conn: nat)
    requires ScheduledFor(done, numConns, split, pins, counts) && Cohort(s) !in pins && conn in counts
    ensures PinnedFor(done, s, numConns, split, pins[Cohort(s) := conn], counts)
  {
    NewPinKeepsLanes(done, split, pins, Cohort(s), conn);
  }

  /** Pinning a new cohort to a least loaded connection keeps every cohort pinned as it should be. */
  lemma PinNewLeastLoaded(statements: seq<Statement>, numConns: nat, i: nat, done: seq<Statement>, pins: map<nat, nat>,
                          conn: nat)
    requires i < |statements| && done == statements[..i] && pins.Keys == CohortsIn(done)
    requires AllPinnedToLeastBusy(statements, numConns, pins, i)
    requires Cohort(statements[i]) !in pins && LeastLoaded(done, numConns, pins, conn)
    ensures AllPinnedToLeastBusy(statements, numConns, pins[Cohort(statements[i]) := conn], i + 1)
  {
    var k := Cohort(statements[i]);
    OldPinsKept(statements, numConns, i, pins, k, conn);
    PinKeepsLeastLoaded(done, numConns, pins, conn, k, conn);
    assert PinnedToLeastBusy(statements, numConns, pins[k := conn], i);
    OnePinMore(statements, numConns, pins[k := conn], i);
  }

  /** A cohort that is pinned already needs no new connection. */
  lemma PinKnown(statements: seq<Statement>, numConns: nat, i: nat, done: seq<Statement>,
                 split: map<nat, seq<Statement>>, pins: map<nat, nat>, counts: map<nat, nat>)
    requires i < |statements| && done == statements[..i] && ScheduledFor(done, numConns, split, pins, counts)
    requires AllPinnedToLeastBusy(statements, numConns, pins, i) && Cohort(statements[i]) in pins
    ensures PinnedFor(done, statements[i], numConns, split, pins, counts)
    ensures AllPinnedToLeastBusy(statements, numConns, pins, i + 1)
  {
  }

  lemma AppendStatement(done: seq<Statement>, s: Statement, numConns: nat,
                        split: map<nat, seq<Statement>>, pins: map<nat, nat>, counts: map<nat, nat>)
    requires PinnedFor(done, s, numConns, split, pins, counts)
    ensures Cohort(s) in pins && pins[Cohort(s)] in counts
    ensures ScheduledFor(done + [s], numConns, Appended(split, pins[Cohort(s)], s), pins,
                         OneMore(counts, pins[Cohort(s)]))
  {
    var conn := pins[Cohort(s)];
    CountsStep(split, counts, numConns, conn, s);
    assert CountsLanes(Appended(split, conn, s), OneMore(counts, conn), numConns);
    CohortsAppend(done, s);
    RangeStep(split, pins, numConns, conn, s);
    AppendLanes(done, s, split, pins);
  }

  function Appended(split: map<nat, seq<Statement>>, conn: nat, s: Statement): map<nat, seq<Statement>> {
    split[conn := Lane(split, conn) + [s]]
  }

  function OneMore(counts: map<nat, nat>, conn: nat): map<nat, nat>
    requires conn in counts
  {
    counts[conn := counts[conn] + 1]
  }

  lemma RangeStep(split: map<nat, seq<Statement>>, pins: map<nat, nat>, numConns: nat, conn: nat, s: Statement)
    requires InRange(split, pins, numConns) && conn < numConns
    ensures InRange(Appended(split, conn, s), pins, numConns)
  {
  }

  lemma CohortsAppend(done: seq<Statement>, s: Statement)
    ensures CohortsIn(done + [s]) == CohortsIn(done) + {Cohort(s)}
  {
    CohortsSnoc(done + [s], |done|);
    assert (done + [s])[..|done|] == done && (done + [s])[..|done| + 1] == done + [s];
  }

  lemma OldPinsKept(statements: seq<Statement>, numConns: nat, i: nat, pins: map<nat, nat>, k: nat, conn: nat)
    requires i <= |statements| && k !in CohortsIn(statements[..i])
    requires AllPinnedToLeastBusy(statements, numConns, pins, i)
    ensures AllPinnedToLeastBusy(statements, numConns, pins[k := conn], i)
  {
    forall j | 0 <= j < i && OpensCohort(statements, j)
      ensures PinnedToLeastBusy(statements, numConns, pins[k := conn], j)
    {
      assert statements[..i][..j] == statements[..j] && statements[..i][j] == statements[j];
      CohortsSnoc(statements[..i], j);
      assert Cohort(statements[..i][j]) in CohortsIn(statements[..i]);
      PinKeepsLeastBusy(statements, numConns, pins, j, k, conn);
    }
  }

  lemma AppendLanes(done: seq<Statement>, s: Statement, split: map<nat, seq<Statement>>, pins: map<nat, nat>)
    requires Lanes(done, split, pins) && Cohort(s) in pins
    ensures Lanes(done + [s], Appended(split, pins[Cohort(s)], s), pins)
  {
  }

  lemma CountsStep(split: map<nat, seq<Statement>>, counts: map<nat, nat>, numConns: nat, conn: nat, s: Statement)
    requires CountsLanes(split, counts, numConns) && conn in counts
    ensures CountsLanes(Appended(split, conn, s), OneMore(counts, conn), numConns)
  {
  }

  /** The positions, below n, of the statements whose cohort, the second number of their tier, is pinned to c. */
  ghost function PinnedTo(statements: seq<Statement>, n: nat, pins: map<nat, nat>, c: nat): set<nat>
    requires n <= |statements|
  {
    set i | 0 <= i < n && (
      var cohort := if |statements[i].tier| >= 2 then statements[i].tier[1] else 0;
      cohort in pins && pins[cohort] == c)
  }

  lemma {:induction false} LaneInFileOrder(statements: seq<Statement>, n: nat, pins: map<nat, nat>, c: nat)
    requires n <= |statements|
    ensures TakesInOrder(statements, OnConn(statements[..n], pins, c), PinnedTo(statements, n, pins, c))
  {
    if n == 0 {
      TakeNone(statements);
      assert OnConn(statements[..0], pins, c) == [] && PinnedTo(statements, 0, pins, c) == {};
    } else {
      LaneInFileOrder(statements, n - 1, pins, c);
      TakeSnoc(statements, n - 1);
      var lane, wanted := OnConn(statements[..n - 1], pins, c), PinnedTo(statements, n - 1, pins, c);
      var cohort := Cohort(statements[n - 1]);
      if cohort in pins && pins[cohort] == c {
        TakeOne(statements, lane, wanted, n - 1);
        assert PinnedTo(statements, n, pins, c) == wanted + {n - 1};
      } else {
        assert PinnedTo(statements, n, pins, c) == wanted;
      }
    }
  }

  lemma LanesInFileOrder(statements: seq<Statement>, split: map<nat, seq<Statement>>, pins: map<nat, nat>)
    requires Lanes(statements, split, pins)
    ensures forall c: nat ::
              TakesInOrder(statements, Lane(split, c), PinnedTo(statements, |statements|, pins, c))
  {
    assert statements[..|statements|] == statements;
    forall c: nat
      ensures TakesInOrder(statements, Lane(split, c), PinnedTo(statements, |statements|, pins, c))
    {
      LaneInFileOrder(statements, |statements|, pins, c);
    }
  }

  /** Pins each cohort to the least busy connection when it is first met, and keeps file order per connection. */
  method ScheduleStatementsOnWorkers(statements: seq<Statement>, numConns: nat)
    returns (splitStatements: map<nat, seq<Statement>>, cohortConnAssignments: map<nat, nat>)
    requires numConns >= 2
    ensures Scheduled(statements, numConns, splitStatements, cohortConnAssignments)
    ensures forall c: nat :: TakesInOrder(statements, Lane(splitStatements, c),
                                          PinnedTo(statements, |statements|, cohortConnAssignments, c))
  {
    splitStatements, cohortConnAssignments := map[], map[];
    var connStatementCounts: map<nat, nat> := map[];
    for n := 0 to numConns
      invariant forall c: nat :: c in connStatementCounts <==> c < n
      invariant forall c | c in connStatementCounts :: connStatementCounts[c] == 0
    {
      connStatementCounts := connStatementCounts[n := 0];
    }
    var i := 0;
    ghost var done: seq<Statement> := [];
    while i < |statements|
      invariant 0 <= i <= |statements| && done == statements[..i]
      invariant ScheduledFor(done, numConns, splitStatements, cohortConnAssignments, connStatementCounts)
      invariant AllPinnedToLeastBusy(statements, numConns, cohortConnAssignments, i)
    {
      var cohort := Cohort(statements[i]);
      if cohort !in cohortConnAssignments {
        var leastBusyConn := FindLeastBusyConn(connStatementCounts);
        LeastBusyByLanes(done, numConns, splitStatements, cohortConnAssignments, connStatementCounts, leastBusyConn);
        PinNewLeastLoaded(statements, numConns, i, done, cohortConnAssignments, leastBusyConn);
        PinNew(done, statements[i], numConns, splitStatements, cohortConnAssignments, connStatementCounts,
               leastBusyConn);
        cohortConnAssignments := cohortConnAssignments[cohort := leastBusyConn];
      } else {
        PinKnown(statements, numConns, i, done, splitStatements, cohortConnAssignments, connStatementCounts);
      }
      AppendStatement(done, statements[i], numConns, splitStatements, cohortConnAssignments, connStatementCounts);
      TakeSnoc(statements, i);
      done := done + [statements[i]];
      var conn := cohortConnAssignments[cohort];
      splitStatements := Appended(splitStatements, conn, statements[i]);
      connStatementCounts := OneMore(connStatementCounts, conn);
      i := i + 1;
    }
    assert done == statements;
    LanesInFileOrder(statements, splitStatements, cohortConnAssignments);
  }

  lemma {:induction false} PinnedLaneNonempty(statements: seq<Statement>, pins: map<nat, nat>, i: nat)
    requires i < |statements| && Cohort(statements[i]) in pins
    ensures Load(statements, pins, pins[Cohort(statements[i])]) > 0
  {
    var n := |statements| - 1;
    if i < n {
      assert statements[..n][i] == statements[i];
      PinnedLaneNonempty(statements[..n], pins, i);
    }
  }

  lemma {:induction false} UnpinnedLaneEmpty(statements: seq<Statement>, pins: map<nat, nat>, c: nat)
    requires forall k | k in CohortsIn(statements) && k in pins :: pins[k] != c
    ensures Load(statements, pins, c) == 0
  {
    if statements != [] {
      var n := |statements| - 1;
      CohortsSnoc(statements, n);
      assert statements[..n + 1] == statements;
      UnpinnedLaneEmpty(statements[..n], pins, c);
    }
  }

  lemma {:induction false} FirstOfCohort(statements: seq<Statement>, k: nat) returns (i: nat)
    requires k in CohortsIn(statements)
    ensures i < |statements| && Cohort(statements[i]) == k && OpensCohort(statements, i)
  {
    var n := |statements| - 1;
    CohortsSnoc(statements, n);
    assert statements[..n + 1] == statements;
    if k in CohortsIn(statements[..n]) {
      i := FirstOfCohort(statements[..n], k);
      assert statements[..n][..i] == statements[..i];
    } else {
      i := n;
    }
  }

  lemma FreeConn(pins: map<nat, nat>, cohorts: set<nat>, numConns: nat) returns (c: nat)
    requires cohorts <= pins.Keys && |cohorts| < numConns
    ensures c < numConns && forall k | k in cohorts :: pins[k] != c
  {
    var used := set k | k in cohorts :: pins[k];
    ImageSize(pins, cohorts);
    var all := Below(numConns);
    if all <= used {
      SubsetSize(all, used);
    }
    c :| c in all && c !in used;
  }

  lemma {:induction false} ImageSize(pins: map<nat, nat>, cohorts: set<nat>)
    requires cohorts <= pins.Keys
    ensures |set k | k in cohorts :: pins[k]| <= |cohorts|
    decreases cohorts
  {
    if cohorts != {} {
      var k :| k in cohorts;
      ImageSize(pins, cohorts - {k});
      assert (set x | x in cohorts :: pins[x]) == (set x | x in cohorts - {k} :: pins[x]) + {pins[k]};
    } else {
      assert (set x | x in cohorts :: pins[x]) == {};
    }
  }

  /** With no more cohorts than connections, no two cohorts share a connection. */
  lemma DistinctCohortsDistinctConns(statements: seq<Statement>, numConns: nat, split: map<nat, seq<Statement>>,
                                     pins: map<nat, nat>, a: nat, b: nat)
    requires Scheduled(statements, numConns, split, pins)
    requires |CohortsIn(statements)| <= numConns
    requires a in pins && b in pins && a != b
    ensures pins[a] != pins[b]
  {
    var i := FirstOfCohort(statements, a);
    var j := FirstOfCohort(statements, b);
    if i < j {
      LaterCohortElsewhere(statements, numConns, split, pins, i, j);
    } else {
      LaterCohortElsewhere(statements, numConns, split, pins, j, i);
    }
  }

  lemma LaterCohortElsewhere(statements: seq<Statement>, numConns: nat, split: map<nat, seq<Statement>>,
                             pins: map<nat, nat>, i: nat, j: nat)
    requires Scheduled(statements, numConns, split, pins)
    requires |CohortsIn(statements)| <= numConns
    requires i < j < |statements| && OpensCohort(statements, j) && Cohort(statements[i]) != Cohort(statements[j])
    ensures pins[Cohort(statements[i])] != pins[Cohort(statements[j])]
  {
    var seen := CohortsIn(statements[..j]);
    CohortsSnoc(statements, j);
    assert Cohort(statements[j]) in CohortsIn(statements);
    SubsetSize(seen + {Cohort(statements[j])}, CohortsIn(statements));
    var c := FreeConn(pins, seen, numConns);
    UnpinnedLaneEmpty(statements[..j], pins, c);
    assert PinnedToLeastBusy(statements, numConns, pins, j);
    assert statements[..j][i] == statements[i];
    PinnedLaneNonempty(statements[..j], pins, i);
  }

  // ----- Connection 0 -----

  /** The first cohort of a tier always goes to connection 1. */
  lemma FirstCohortOnOne(statements: seq<Statement>, numConns: nat, pins: map<nat, nat>)
    requires statements != [] && AllPinnedToLeastBusy(statements, numConns, pins, 1)
    ensures Cohort(statements[0]) in pins && pins[Cohort(statements[0])] == 1
  {
    assert statements[..0] == [];
    assert OpensCohort(statements, 0);
    assert PinnedToLeastBusy(statements, numConns, pins, 0);
  }

  /** A connection is used if and only if some cohort is pinned to it. */
  lemma UsedIff(statements: seq<Statement>, pins: map<nat, nat>, c: nat)
    requires pins.Keys == CohortsIn(statements)
    ensures Load(statements, pins, c) > 0 <==> exists k :: k in pins && pins[k] == c
  {
    if k :| k in pins && pins[k] == c {
      var i := FirstOfCohort(statements, k);
      PinnedLaneNonempty(statements, pins, i);
    } else {
      UnpinnedLaneEmpty(statements, pins, c);
    }
  }

  /** As long as some connection is unused, cohorts do not share connections. */
  lemma UnusedMeansUnshared(statements: seq<Statement>, numConns: nat, pins: map<nat, nat>, free: nat, a: nat, b: nat)
    requires pins.Keys == CohortsIn(statements) && AllPinnedToLeastBusy(statements, numConns, pins, |statements|)
    requires free < numConns && forall k | k in pins :: pins[k] != free
    requires a in pins && b in pins && a != b
    ensures pins[a] != pins[b]
  {
    var i := FirstOfCohort(statements, a);
    var j := FirstOfCohort(statements, b);
    var first, later := if i < j then i else j, if i < j then j else i;
    UnpinnedLaneEmpty(statements[..later], pins, free);
    assert PinnedToLeastBusy(statements, numConns, pins, later);
    assert statements[..later][first] == statements[first];
    PinnedLaneNonempty(statements[..later], pins, first);
  }

  /** With as many cohorts as connections, connection 0 is used, and with one cohort it is not. */
  lemma ConnZeroUsed(statements: seq<Statement>, numConns: nat, split: map<nat, seq<Statement>>, pins: map<nat, nat>)
    requires numConns >= 2 && Scheduled(statements, numConns, split, pins)
    ensures |CohortsIn(statements)| >= numConns ==> Load(statements, pins, 0) > 0
    ensures |CohortsIn(statements)| <= 1 ==> Load(statements, pins, 0) == 0
  {
    UsedIff(statements, pins, 0);
    if Load(statements, pins, 0) == 0 {
      forall a, b | a in pins && b in pins && a < b
        ensures pins[a] != pins[b]
      {
        UnusedMeansUnshared(statements, numConns, pins, 0, a, b);
      }
      SplitSize(Below(numConns), {0});
      InjectionSize(CohortsIn(statements), pins, Below(numConns) - {0});
    } else {
      var k :| k in pins && pins[k] == 0;
      FirstCohortOnOne(statements, numConns, pins);
      SubsetSize({k, Cohort(statements[0])}, CohortsIn(statements));
    }
  }

  lemma {:induction false} LeastConn(statements: seq<Statement>, numConns: nat, pins: map<nat, nat>, n: nat)
    returns (conn: nat)
    requires 2 <= numConns && n <= numConns
    ensures conn < numConns && Load(statements, pins, conn) <= Load(statements, pins, 1)
    ensures conn != 1 ==> Load(statements, pins, conn) < Load(statements, pins, 1)
    ensures forall c: nat | c < n :: Load(statements, pins, conn) <= Load(statements, pins, c)
  {
    if n == 0 {
      conn := 1;
    } else {
      conn := LeastConn(statements, numConns, pins, n - 1);
      if Load(statements, pins, n - 1) < Load(statements, pins, conn) {
        conn := n - 1;
      }
    }
  }

  /** The pins are those of some schedule of the first n statements. */
  ghost predicate PinsOf(statements: seq<Statement>, numConns: nat, pins: map<nat, nat>, n: nat)
    requires n <= |statements|
  {
    && pins.Keys == CohortsIn(statements[..n])
    && (forall k | k in pins :: pins[k] < numConns)
    && AllPinnedToLeastBusy(statements, numConns, pins, n)
  }

  ghost predicate Uses(pins: map<nat, nat>, c: nat) {
    exists k :: k in pins && pins[k] == c
  }

  /** A connection without statements is least loaded, if connection 1 has some. */
  lemma FreeIsLeast(done: seq<Statement>, numConns: nat, pins: map<nat, nat>, c: nat)
    requires pins.Keys == CohortsIn(done) && !Uses(pins, c) && Uses(pins, 1)
    ensures LeastLoaded(done, numConns, pins, c)
  {
    UsedIff(done, pins, c);
    UsedIff(done, pins, 1);
  }

  /** With fewer cohorts than connections but 0, and none on 0, another connection is free. */
  lemma FreeButZero(pins: map<nat, nat>, k: nat, numConns: nat) returns (c: nat)
    requires k !in pins && |pins.Keys| + 1 < numConns
    ensures 0 < c < numConns && !Uses(pins, c)
  {
    OneKeyMore(pins, k, 0);
    var pins' := pins[k := 0];
    c := FreeConn(pins', pins'.Keys, numConns);
    assert pins'[k] != c;
    forall x | x in pins
      ensures pins[x] != c
    {
      assert pins'[x] == pins[x];
    }
  }

  /** A choice for a new cohort: connection 0 as soon as it can be, or not as long as it can be avoided. */
  lemma ChooseConn(statements: seq<Statement>, numConns: nat, pins: map<nat, nat>, n: nat, avoid: bool)
    returns (conn: nat)
    requires numConns >= 2 && n < |statements| && PinsOf(statements, numConns, pins, n) &&
             Cohort(statements[n]) !in pins
    ensures conn < numConns && LeastLoaded(statements[..n], numConns, pins, conn)
    ensures !avoid && n > 0 && !Uses(pins, 0) ==> conn == 0
    ensures avoid && |pins.Keys| + 1 < numConns && !Uses(pins, 0) ==> conn != 0
  {
    if n > 0 {
      FirstCohortOnOne(statements, numConns, pins);
    }
    if !avoid && n > 0 && !Uses(pins, 0) {
      conn := 0;
      FreeIsLeast(statements[..n], numConns, pins, 0);
    } else if avoid && n > 0 && |pins.Keys| + 1 < numConns && !Uses(pins, 0) {
      conn := FreeButZero(pins, Cohort(statements[n]), numConns);
      FreeIsLeast(statements[..n], numConns, pins, conn);
    } else {
      conn := LeastConn(statements[..n], numConns, pins, numConns);
    }
  }

  /** Connection 0 is used for the second cohort, or avoided as long as it can be. */
  ghost predicate Inclined(pins: map<nat, nat>, numConns: nat, avoid: bool) {
    && (!avoid && |pins.Keys| >= 2 ==> Uses(pins, 0))
    && (avoid && |pins.Keys| < numConns ==> !Uses(pins, 0))
  }

  lemma {:induction false} SomePins(statements: seq<Statement>, numConns: nat, n: nat, avoid: bool)
    returns (pins: map<nat, nat>)
    requires numConns >= 2 && n <= |statements|
    ensures PinsOf(statements, numConns, pins, n) && Inclined(pins, numConns, avoid)
  {
    if n == 0 {
      pins := map[];
    } else {
      pins := SomePins(statements, numConns, n - 1, avoid);
      if Cohort(statements[n - 1]) in pins {
        KnownPins(statements, numConns, n - 1, pins);
      } else {
        pins := MorePins(statements, numConns, n - 1, pins, avoid);
      }
    }
  }

  lemma KnownPins(statements: seq<Statement>, numConns: nat, n: nat, pins: map<nat, nat>)
    requires n < |statements| && PinsOf(statements, numConns, pins, n) && Cohort(statements[n]) in pins
    ensures PinsOf(statements, numConns, pins, n + 1)
  {
    CohortsSnoc(statements, n);
    OnePinMore(statements, numConns, pins, n);
  }

  lemma MorePins(statements: seq<Statement>, numConns: nat, n: nat, pins: map<nat, nat>, avoid: bool)
    returns (pins': map<nat, nat>)
    requires numConns >= 2 && n < |statements| && PinsOf(statements, numConns, pins, n) &&
             Cohort(statements[n]) !in pins
    requires Inclined(pins, numConns, avoid)
    ensures PinsOf(statements, numConns, pins', n + 1) && Inclined(pins', numConns, avoid)
  {
    var k := Cohort(statements[n]);
    var conn := ChooseConn(statements, numConns, pins, n, avoid);
    CohortsSnoc(statements, n);
    PinNewLeastLoaded(statements, numConns, n, statements[..n], pins, conn);
    pins' := pins[k := conn];
    UsesNew(pins, k, conn);
    OneKeyMore(pins, k, conn);
    assert n == 0 ==> pins.Keys == {};
  }

  lemma OneKeyMore(pins: map<nat, nat>, k: nat, conn: nat)
    requires k !in pins
    ensures pins[k := conn].Keys == pins.Keys + {k} && |pins[k := conn].Keys| == |pins.Keys| + 1
  {
  }

  lemma UsesNew(pins: map<nat, nat>, k: nat, conn: nat)
    requires k !in pins
    ensures Uses(pins[k := conn], 0) <==> Uses(pins, 0) || conn == 0
  {
    var pins' := pins[k := conn];
    assert pins'[k] == conn;
    if x :| x in pins && pins[x] == 0 {
      assert pins'[x] == 0;
    }
  }

  lemma PinsGiveSchedule(statements: seq<Statement>, numConns: nat, pins: map<nat, nat>)
    returns (split: map<nat, seq<Statement>>)
    requires PinsOf(statements, numConns, pins, |statements|)
    ensures Scheduled(statements, numConns, split, pins)
  {
    split := map c: nat | c < numConns :: OnConn(statements, pins, c);
    assert statements[..|statements|] == statements;
    forall c: nat
      ensures Lane(split, c) == OnConn(statements, pins, c)
    {
      if c >= numConns {
        UnpinnedLaneEmpty(statements, pins, c);
      }
    }
  }

  ghost predicate AlwaysUsesZero(statements: seq<Statement>, numConns: nat) {
    forall split, pins | Scheduled(statements, numConns, split, pins) :: Load(statements, pins, 0) > 0
  }

  ghost predicate NeverUsesZero(statements: seq<Statement>, numConns: nat) {
    forall split, pins | Scheduled(statements, numConns, split, pins) :: Load(statements, pins, 0) == 0
  }

  /**
   * Connection 0 is left alone in every schedule if and only if there is at most one cohort, and gets statements in
   * every schedule if and only if there are as many cohorts as connections. In between it depends on the map order.
   */
  lemma ConnZeroIff(statements: seq<Statement>, numConns: nat)
    requires numConns >= 2
    ensures NeverUsesZero(statements, numConns) <==> |CohortsIn(statements)| <= 1
    ensures AlwaysUsesZero(statements, numConns) <==> |CohortsIn(statements)| >= numConns
  {
    forall split, pins | Scheduled(statements, numConns, split, pins)
      ensures |CohortsIn(statements)| >= numConns ==> Load(statements, pins, 0) > 0
      ensures |CohortsIn(statements)| <= 1 ==> Load(statements, pins, 0) == 0
    {
      ConnZeroUsed(statements, numConns, split, pins);
    }
    assert statements[..|statements|] == statements;
    var some := SomePins(statements, numConns, |statements|, false);
    var other := SomePins(statements, numConns, |statements|, true);
    var split := PinsGiveSchedule(statements, numConns, some);
    var split' := PinsGiveSchedule(statements, numConns, other);
    UsedIff(statements, some, 0);
    UsedIff(statements, other, 0);
  }
}

/**
 * Running migration checks inside one transaction: every check runs under a savepoint, so that a failing one
 * leaves the transaction as it was for the next.
 */
module Savepoints {

  /** A savepoint remembers the setting of track_counts. */
  datatype Savepoint = Savepoint(name: string, trackCounts: bool)

  /** The state of a database transaction; resetTo is what RESET sets track_counts to. */
  datatype Txn = Txn(aborted: bool, savepoints: seq<Savepoint>, trackCounts: bool, resetTo: bool)

  const CHECK := "ggcheckmigrate_check"

  /** The innermost savepoint of a name, counted from the outside; the number of savepoints if there is none. */
  function Innermost(s: seq<Savepoint>, name: string): (i: nat)
    ensures i <= |s| && (i < |s| ==> s[i].name == name)
  {
    if s == [] then 0
    else if s[|s| - 1].name == name then |s| - 1
    else
      var i := Innermost(s[..|s| - 1], name);
      if i == |s| - 1 then |s| else i
  }

  datatype Command =
    | SetSavepoint(name: string)
    | Release(name: string)
    | RollbackTo(name: string)
    | TrackCountsOff
    | ResetTrackCounts

  /** What a command does if the server is able to run it. */
  function Apply(t: Txn, c: Command): Txn
    requires c.Release? || c.RollbackTo? ==> Innermost(t.savepoints, c.name) < |t.savepoints|
  {
    match c
    case SetSavepoint(name) => t.(savepoints := t.savepoints + [Savepoint(name, t.trackCounts)])
    case Release(name) => t.(savepoints := t.savepoints[..Innermost(t.savepoints, name)])
    case RollbackTo(name) =>
      var i := Innermost(t.savepoints, name);
      t.(aborted := false, savepoints := t.savepoints[..i + 1], trackCounts := t.savepoints[i].trackCounts)
    case TrackCountsOff => t.(trackCounts := false)
    case ResetTrackCounts => t.(trackCounts := t.resetTo)
  }

  /** In an aborted transaction only a rollback can succeed; broken says that the command fails for other reasons. */
  predicate Succeeds(t: Txn, c: Command, broken: bool) {
    && !broken
    && (t.aborted ==> c.RollbackTo?)
    && (c.Release? || c.RollbackTo? ==> Innermost(t.savepoints, c.name) < |t.savepoints|)
  }

  /** A command that fails aborts the transaction. */
  function Exec(t: Txn, c: Command, broken: bool): Txn {
    if Succeeds(t, c, broken) then Apply(t, c) else t.(aborted := true)
  }

  /** A check and whether its queries can run now: they may fail with or without aborting the transaction. */
  datatype Check = Check(requiredCapability: string, shouldDisableTrackCounts: bool)

  datatype CheckResult = CheckResult(findings: nat, failed: bool, unavailable: bool, aborts: bool)

  /** Which of the statements around a check fail, and what the check itself does. */
  datatype Faults = Faults(savepoint: bool, off: bool, result: CheckResult, reset: bool, rollback: bool, release: bool)

  datatype Summary = Summary(completed: nat, failed: nat, unavailable: nat, findings: nat)

  function RunChecks(t: Txn, r: CheckResult): Txn {
    if r.aborts then t.(aborted := true) else t
  }

  /** The check, and the settings it asks for, ran without an error. */
  predicate Passes(t: Txn, check: Check, f: Faults) {
    var off := if check.shouldDisableTrackCounts then Exec(t, TrackCountsOff, f.off) else t;
    var ran := RunChecks(off, f.result);
    && (check.shouldDisableTrackCounts ==> Succeeds(t, TrackCountsOff, f.off))
    && !f.result.failed
    && (check.shouldDisableTrackCounts ==> Succeeds(ran, ResetTrackCounts, f.reset))
  }

  /**
   * The settings a check asks for and the check itself: the state, the error if any, and what it found. before is the
   * state in which the check's own queries run: with track_counts off, if it asks for that.
   */
  method RunDisabled(t: Txn, check: Check, f: Faults)
    returns (t': Txn, checkError: bool, unavailable: bool, findings: nat, ghost before: Txn)
    requires !t.aborted
    ensures Ran(t, check, f) ==> !before.aborted && (check.shouldDisableTrackCounts ==> !before.trackCounts)
    ensures t'.savepoints == t.savepoints && t'.resetTo == t.resetTo
    ensures checkError <==> !Passes(t, check, f)
    ensures !checkError ==>
              && t'.aborted == f.result.aborts
              && t'.trackCounts == if check.shouldDisableTrackCounts then t.resetTo else t.trackCounts
    ensures unavailable <==> Ran(t, check, f) && f.result.failed && f.result.unavailable
    ensures findings == if Ran(t, check, f) then f.result.findings else 0
  {
    t', checkError, unavailable, findings, before := t, false, false, 0, t;
    if check.shouldDisableTrackCounts {
      checkError := !Succeeds(t', TrackCountsOff, f.off);
      t' := Exec(t', TrackCountsOff, f.off);
    }
    before := t';
    if !checkError {
      checkError, findings := f.result.failed, f.result.findings;
      unavailable := checkError && f.result.unavailable;
      t' := RunChecks(t', f.result);
    }
    if !checkError && check.shouldDisableTrackCounts {
      checkError := !Succeeds(t', ResetTrackCounts, f.reset);
      t' := Exec(t', ResetTrackCounts, f.reset);
    }
  }

  /** The part of a check between setting its savepoint and releasing it. */
  method RunUnderSavepoint(t: Txn, check: Check, f: Faults)
    returns (t': Txn, summary: Summary, error: bool, continues: bool)
    requires !t.aborted && |t.savepoints| > 0 && t.savepoints[|t.savepoints| - 1] == Savepoint(CHECK, t.trackCounts)
    ensures t'.savepoints == t.savepoints && t'.resetTo == t.resetTo
    ensures Passes(t, check, f) ==>
              && continues && !error && summary.completed == 1 && summary.failed == 0
              && t'.aborted == f.result.aborts
              && t'.trackCounts == if check.shouldDisableTrackCounts then t.resetTo else t.trackCounts
    ensures !Passes(t, check, f) ==>
              && error && summary.completed == 0 && summary.failed == (if continues then 1 else 0)
              && (continues <==> !f.rollback && !(Ran(t, check, f) && f.result.failed && f.result.unavailable))
              && (continues ==> t' == t)
    ensures summary.unavailable == 0 && summary.findings == if Ran(t, check, f) then f.result.findings else 0
  {
    var checkError, unavailable, findings;
    ghost var before;
    t', checkError, unavailable, findings, before := RunDisabled(t, check, f);
    summary, error, continues := Summary(0, 0, 0, findings), checkError, true;
    if !checkError {
      return t', summary.(completed := 1), false, true;
    }
    assert Innermost(t'.savepoints, CHECK) == |t'.savepoints| - 1;
    continues := Succeeds(t', RollbackTo(CHECK), f.rollback);
    t' := Exec(t', RollbackTo(CHECK), f.rollback);
    if continues && unavailable {
      continues := false;
    }
    if continues {
      summary := summary.(failed := 1);
    }
  }

  /** The check's own queries are run. */
  predicate Ran(t: Txn, check: Check, f: Faults) {
    check.shouldDisableTrackCounts ==> Succeeds(t, TrackCountsOff, f.off)
  }

  /** The summary of a check that leaves the transaction usable, in terms of what failed. */
  function ExpectedSummary(check: Check, f: Faults): Summary {
    var off := check.shouldDisableTrackCounts;
    var ran := !(off && f.off);
    if ran && !f.result.failed && !(off && (f.result.aborts || f.reset)) then Summary(1, 0, 0, f.result.findings)
    else Summary(0, 1, 0, if ran then f.result.findings else 0)
  }

  method RunMigrationCheck(t: Txn, check: Check, f: Faults)
    returns (t': Txn, summary: Summary, error: bool, continues: bool)
    ensures continues ==> !t'.aborted && t'.savepoints == t.savepoints && t'.resetTo == t.resetTo
    ensures continues ==>
              t'.trackCounts ==
              if check.shouldDisableTrackCounts && summary.completed == 1 then t.resetTo else t.trackCounts
    ensures continues ==> summary == ExpectedSummary(check, f) && (error <==> summary.failed == 1)
    ensures !continues ==> error && summary.completed + summary.failed <= 1
    ensures summary.unavailable == 0
    ensures continues <==> Continues(t, check, f)
  {
    t' := Exec(t, SetSavepoint(CHECK), f.savepoint);
    if !Succeeds(t, SetSavepoint(CHECK), f.savepoint) {
      return t', Summary(0, 0, 0, 0), true, false;
    }
    t', summary, error, continues := RunUnderSavepoint(t', check, f);
    var released := Succeeds(t', Release(CHECK), f.release);
    t' := Exec(t', Release(CHECK), f.release);
    if !released {
      error, continues := true, false;
    }
  }

  /** Later checks may run: the savepoint was set and released, and a failure in between was rolled back. */
  predicate Continues(t: Txn, check: Check, f: Faults) {
    var begun := Exec(t, SetSavepoint(CHECK), f.savepoint);
    && Succeeds(t, SetSavepoint(CHECK), f.savepoint)
    && !f.release
    && if Passes(begun, check, f) then !f.result.aborts
       else !f.rollback && !(Ran(begun, check, f) && f.result.failed && f.result.unavailable)
  }

  /** The checks of a plan, one after the other, with what happens at each; ended tells whether all had their turn. */
  method RunMigrationCheckPlan(t: Txn, checks: seq<Check>, available: set<string>, faults: seq<Faults>)
    returns (t': Txn, summary: Summary, error: bool, ghost ended: bool)
    requires |faults| == |checks|
    ensures ended ==> summary == ExpectedTotal(checks, available, faults, |checks|)
    ensures ended ==> summary.completed + summary.failed + summary.unavailable == |checks|
    ensures ended && !t.aborted ==> !t'.aborted && t'.savepoints == t.savepoints
    ensures ended && t.trackCounts == t.resetTo ==> t'.trackCounts == t.trackCounts
    ensures error <==> !ended || summary.failed > 0
    ensures summary.completed + summary.failed + summary.unavailable <= |checks|
    ensures ended ==> summary.unavailable == |LackingCapability(checks, available, |checks|)|
    ensures !t.aborted && (forall f | f in faults :: Quiet(f)) ==>
              && ended && !error && summary.failed == 0
              && summary.completed == |checks| - |LackingCapability(checks, available, |checks|)|
  {
    t', summary, error := t, Summary(0, 0, 0, 0), false;
    ended := false;
    for i := 0 to |checks|
      invariant summary == ExpectedTotal(checks, available, faults, i)
      invariant summary.completed + summary.failed + summary.unavailable == i
      invariant !t.aborted ==> !t'.aborted
      invariant t'.savepoints == t.savepoints && t'.resetTo == t.resetTo
      invariant t.trackCounts == t.resetTo ==> t'.trackCounts == t.trackCounts
      invariant error <==> summary.failed > 0
      invariant summary.unavailable == |LackingCapability(checks, available, i)|
      invariant !t.aborted && (forall f | f in faults :: Quiet(f)) ==> summary.failed == 0
    {
      LackingOneMore(checks, available, i);
      if Unavailable(checks[i], available) {
        summary := summary.(unavailable := summary.unavailable + 1);
        continue;
      }
      if Quiet(faults[i]) && !t'.aborted {
        QuietContinues(t', checks[i], faults[i]);
      }
      assert faults[i] in faults;
      var one, checkError, continues;
      t', one, checkError, continues := RunMigrationCheck(t', checks[i], faults[i]);
      summary := Summary(summary.completed + one.completed, summary.failed + one.failed, summary.unavailable,
                         summary.findings + one.findings);
      if checkError {
        error := true;
      }
      if !continues {
        return;
      }
    }
    ended := true;
  }

  /** The positions, below n, of the checks that need a capability the server does not have. */
  ghost function LackingCapability(checks: seq<Check>, available: set<string>, n: nat): set<nat>
    requires n <= |checks|
  {
    set i | 0 <= i < n && checks[i].requiredCapability != "" && checks[i].requiredCapability !in available
  }

  lemma LackingOneMore(checks: seq<Check>, available: set<string>, n: nat)
    requires n < |checks|
    ensures |LackingCapability(checks, available, n + 1)| ==
            |LackingCapability(checks, available, n)| + if Unavailable(checks[n], available) then 1 else 0
  {
    var before, after := LackingCapability(checks, available, n), LackingCapability(checks, available, n + 1);
    assert n !in before;
    if Unavailable(checks[n], available) {
      assert after == before + {n};
    } else {
      assert after == before;
    }
  }

  lemma QuietContinues(t: Txn, check: Check, f: Faults)
    requires Quiet(f) && !t.aborted
    ensures Continues(t, check, f) && ExpectedSummary(check, f) == Summary(1, 0, 0, f.result.findings)
  {
  }

  /** No statement around a check fails, and neither does the check. */
  ghost predicate Quiet(f: Faults) {
    !f.savepoint && !f.off && !f.result.failed && !f.result.aborts && !f.reset && !f.rollback && !f.release
  }

  predicate Unavailable(check: Check, available: set<string>) {
    check.requiredCapability != "" && check.requiredCapability !in available
  }

  /** The sums over the first n checks, when none of them ends the plan. */
  function ExpectedTotal(checks: seq<Check>, available: set<string>, faults: seq<Faults>, n: nat): Summary
    requires n <= |checks| == |faults|
  {
    if n == 0 then Summary(0, 0, 0, 0)
    else
      var sum := ExpectedTotal(checks, available, faults, n - 1);
      if Unavailable(checks[n - 1], available) then sum.(unavailable := sum.unavailable + 1)
      else
        var one := ExpectedSummary(checks[n - 1], faults[n - 1]);
        Summary(sum.completed + one.completed, sum.failed + one.failed, sum.unavailable, sum.findings + one.findings)
  }

  /**
   * RESET does not bring back the earlier setting of track_counts but the session's default: a completed check
   * that disables it changes it exactly if the two differ.
   */
  lemma ResetIsNotRestore(t: Txn, check: Check, f: Faults)
    requires Continues(t, check, f) && check.shouldDisableTrackCounts
    requires Passes(Exec(t, SetSavepoint(CHECK), f.savepoint), check, f)
    ensures var begun := Exec(t, SetSavepoint(CHECK), f.savepoint);
            var ended := Exec(Exec(RunChecks(Exec(begun, TrackCountsOff, f.off), f.result), ResetTrackCounts, f.reset),
                              Release(CHECK), f.release);
            ended.savepoints == t.savepoints && (ended.trackCounts == t.trackCounts <==> t.resetTo == t.trackCounts)
  {
  }
}

/** Traces of executions and decisions as the session really reads: no pass sees its own rows.
    Such a trace keeps sole suggestions exclusive exactly when no pass picks one ledger row for
    two bank rows. */
module UnflushedRuns {
  import opened RowOrder
  import opened ReconciliationModel
  import opened OneToOneMatching
  import opened OneToOneProperties
  import opened SoleSuggestions

  /** A completed run is never executed again. */
  ghost predicate RunsOnce(steps: seq<Step>) {
    forall i, j | 0 <= i < j < |steps| && steps[i].Execute? && steps[j].Execute? :: steps[i].run != steps[j].run
  }

  ghost predicate ExecutedIn(steps: seq<Step>, run: Id) {
    exists j :: 0 <= j < |steps| && steps[j].Execute? && steps[j].run == run
  }

  lemma PassAddsItsRun(step: Step, flushed: seq<Suggestion>, x: Suggestion)
    requires step.Execute? && FreshRun(flushed, step.run)
    requires x in RunPass(step.run, step.scope, step.banks, step.ledgers, step.cfg, flushed, false).added
    ensures x.run == step.run
  {
    hide AfterRows;
    var claimed := AlreadyClaimed(flushed, step.ledgers, step.scope.entity);
    ScopeRowsAreDistinct(step.banks, step.scope);
    var rows := InOrder(ScopeRows(step.banks, step.scope), BankKey());
    FreshPassSkipsNothing(Pass([], claimed, 0, 0, 0, 0), step.run, rows, step.ledgers, step.cfg, flushed, false);
  }

  lemma {:induction false} RowsComeFromExecutions(steps: seq<Step>, x: Suggestion)
    requires RunsOnce(steps) && x in ApplyAll(steps, false)
    ensures ExecutedIn(steps, x.run)
    decreases |steps|, 1
  {
    hide RunPass, FreshRun;
    var front, step := steps[..|steps| - 1], steps[|steps| - 1];
    var rows := ApplyAll(front, false);
    var y := x;
    if step.Decide? && MayResolve(rows, step.index) && x !in rows {
      var k :| 0 <= k < |rows| && Resolved(rows, step.index, step.accept)[k] == x;
      y := rows[k];
    }
    if y in rows {
      RowsComeFromExecutions(front, y);
      var j :| 0 <= j < |front| && front[j].Execute? && front[j].run == y.run;
      assert steps[j].Execute? && steps[j].run == x.run;
    } else {
      NextRunIsFresh(steps);
      PassAddsItsRun(step, rows, x);
      assert steps[|steps| - 1].run == x.run;
    }
  }

  lemma NextRunIsFresh(steps: seq<Step>)
    requires RunsOnce(steps) && steps != [] && steps[|steps| - 1].Execute?
    ensures FreshRun(ApplyAll(steps[..|steps| - 1], false), steps[|steps| - 1].run)
    decreases |steps|, 0
  {
    hide ApplyAll;
    var front, run := steps[..|steps| - 1], steps[|steps| - 1].run;
    forall x | x in ApplyAll(front, false) ensures x.run != run {
      RowsComeFromExecutions(front, x);
      var j :| 0 <= j < |front| && front[j].Execute? && front[j].run == x.run;
      assert steps[j] == front[j];
    }
  }

  // ---------------------------------------------------------------- step by step

  /** What an execution has to meet, on the rows as they are before it. */
  ghost predicate PicksDiffer(rows: seq<Suggestion>, step: Step) {
    step.Execute? ==> DifferentPicks(InOrder(ScopeRows(step.banks, step.scope), BankKey()), step.ledgers, step.cfg,
                                     AlreadyClaimed(rows, step.ledgers, step.scope.entity))
  }

  lemma StepKeepsExclusiveExactlyWhen(rows: seq<Suggestion>, step: Step)
    requires Exclusive(rows) && (step.Execute? ==> FreshRun(rows, step.run))
    ensures Exclusive(Apply(rows, step, false)) <==> PicksDiffer(rows, step)
  {
    hide RunPass, MayResolve, Exclusive, DifferentPicks, FreshRun;
    match step
    case Execute(run, scope, banks, ledgers, cfg) =>
      UnflushedRunIsExclusiveExactlyWhen(run, scope, banks, ledgers, cfg, rows);
    case Decide(i, accept) =>
      if MayResolve(rows, i) {
        DecisionKeepsExclusive(rows, i, accept);
      }
  }

  // ---------------------------------------------------------------- whole traces

  ghost predicate AlwaysExclusive(steps: seq<Step>) {
    forall n | 0 <= n <= |steps| :: Exclusive(ApplyAll(steps[..n], false))
  }

  ghost predicate PicksAlwaysDiffer(steps: seq<Step>) {
    forall n | 0 <= n < |steps| :: PicksDiffer(ApplyAll(steps[..n], false), steps[n])
  }

  lemma PrefixStep(steps: seq<Step>, n: nat)
    requires RunsOnce(steps) && n < |steps| && Exclusive(ApplyAll(steps[..n], false))
    ensures Exclusive(ApplyAll(steps[..n + 1], false)) <==> PicksDiffer(ApplyAll(steps[..n], false), steps[n])
  {
    hide Apply, Exclusive, PicksDiffer, FreshRun;
    var upTo := steps[..n + 1];
    assert upTo[..n] == steps[..n] && upTo[n] == steps[n];
    if steps[n].Execute? {
      NextRunIsFresh(upTo);
    }
    StepKeepsExclusiveExactlyWhen(ApplyAll(steps[..n], false), steps[n]);
  }

  lemma {:induction false} ExclusiveUpTo(steps: seq<Step>, n: nat)
    requires RunsOnce(steps) && PicksAlwaysDiffer(steps) && n <= |steps|
    ensures Exclusive(ApplyAll(steps[..n], false))
  {
    hide PicksDiffer, Apply;
    if n == 0 {
      NothingIsExclusive();
    } else {
      hide Exclusive, ApplyAll;
      ExclusiveUpTo(steps, n - 1);
      PrefixStep(steps, n - 1);
    }
  }

  /** Over any trace, each run executed once and decisions taken at any time, sole suggestions are
      exclusive throughout exactly when at every execution no two bank rows of its scope have the
      same only candidate among the ledger rows unclaimed before it. */
  lemma UnflushedTraceIsExclusiveExactlyWhen(steps: seq<Step>)
    requires RunsOnce(steps)
    ensures AlwaysExclusive(steps) <==> PicksAlwaysDiffer(steps)
  {
    hide PicksDiffer, Exclusive, ApplyAll;
    if AlwaysExclusive(steps) {
      forall n | 0 <= n < |steps| ensures PicksDiffer(ApplyAll(steps[..n], false), steps[n]) {
        PrefixStep(steps, n);
      }
    } else if PicksAlwaysDiffer(steps) {
      forall n | 0 <= n <= |steps| ensures Exclusive(ApplyAll(steps[..n], false)) {
        ExclusiveUpTo(steps, n);
      }
    }
  }
}

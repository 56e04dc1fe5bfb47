/** Retried rebookings: a request whose key an earlier rebooking of the same investment used
    changes nothing, whatever else happened in between. */
module Rebookings {
  import opened ReconciliationModel
  import opened InvestmentBook

  predicate Retries(step: Step, seen: set<RebookEvent>) {
    step.Rebook? && step.key.Some? && RebookEvent(step.i, step.key) in seen
  }

  /** The keys used so far, after a step. */
  function Seen(b: Book, step: Step, seen: set<RebookEvent>): set<RebookEvent> {
    if step.Rebook? && Allowed(b, step) then seen + {RebookEvent(step.i, step.key)} else seen
  }

  /** The run with every retry removed. */
  function WithoutRetries(b: Book, steps: seq<Step>, seen: set<RebookEvent>): seq<Step>
    decreases |steps|
  {
    if steps == [] then []
    else if Retries(steps[0], seen) then WithoutRetries(b, steps[1..], seen)
    else [steps[0]] + WithoutRetries(Next(b, steps[0]), steps[1..], Seen(b, steps[0], seen))
  }

  ghost predicate Recorded(b: Book, seen: set<RebookEvent>) {
    forall e | e in seen :: e in b.rebookings
  }

  lemma StepKeepsRecorded(b: Book, step: Step, seen: set<RebookEvent>)
    requires Recorded(b, seen)
    ensures Recorded(Next(b, step), Seen(b, step, seen))
  {
  }

  lemma RetryIsRefused(b: Book, step: Step, seen: set<RebookEvent>)
    requires Recorded(b, seen) && Retries(step, seen)
    ensures !Allowed(b, step)
  {
  }

  lemma {:induction false} AfterFirst(b: Book, steps: seq<Step>)
    requires steps != []
    ensures After(b, steps) == After(Next(b, steps[0]), steps[1..])
  {
    hide Next;
    if |steps| > 1 {
      var front := steps[..|steps| - 1];
      AfterFirst(b, front);
      assert steps[1..][..|steps| - 2] == front[1..];
    } else {
      assert steps[..0] == [];
    }
  }

  lemma {:induction false} RetriesCanBeRemoved(b: Book, steps: seq<Step>, seen: set<RebookEvent>)
    requires Recorded(b, seen)
    ensures After(b, WithoutRetries(b, steps, seen)) == After(b, steps)
    decreases |steps|
  {
    hide Next, Allowed, After, Recorded;
    if steps != [] {
      var step := steps[0];
      AfterFirst(b, steps);
      if Retries(step, seen) {
        RetryIsRefused(b, step, seen);
        RefusedIsIgnored(b, step);
        RetriesCanBeRemoved(b, steps[1..], seen);
      } else {
        StepKeepsRecorded(b, step, seen);
        RetriesCanBeRemoved(Next(b, step), steps[1..], Seen(b, step, seen));
        var kept := WithoutRetries(b, steps, seen);
        AfterFirst(b, kept);
        assert kept[1..] == WithoutRetries(Next(b, step), steps[1..], Seen(b, step, seen));
      }
    }
  }

  lemma RefusedIsIgnored(b: Book, step: Step)
    requires !Allowed(b, step)
    ensures Next(b, step) == b
  {
  }

  /** For any run of the system and any repetitions of rebooking keys, also of rate-only and
      maturity-only rebookings, the final investments, transactions and ledger are those of
      the run with every retry removed. */
  lemma RetriesChangeNothing(steps: seq<Step>)
    ensures After(EMPTY, WithoutRetries(EMPTY, steps, {})) == After(EMPTY, steps)
  {
    RetriesCanBeRemoved(EMPTY, steps, {});
  }

  /** No key is used twice for one investment. */
  ghost predicate KeysUsedOnce(rebookings: seq<RebookEvent>) {
    forall i, j | 0 <= i < j < |rebookings| && rebookings[i].key.Some? :: rebookings[i] != rebookings[j]
  }

  lemma StepKeepsKeysUsedOnce(b: Book, step: Step)
    requires KeysUsedOnce(b.rebookings)
    ensures KeysUsedOnce(Next(b, step).rebookings)
  {
    if step.Rebook? && Allowed(b, step) {
      assert forall i | 0 <= i < |b.rebookings| :: b.rebookings[i] in b.rebookings;
    }
  }

  lemma {:induction false} EveryKeyIsUsedOnce(steps: seq<Step>)
    ensures KeysUsedOnce(After(EMPTY, steps).rebookings)
  {
    hide Next;
    if steps != [] {
      EveryKeyIsUsedOnce(steps[..|steps| - 1]);
      StepKeepsKeysUsedOnce(After(EMPTY, steps[..|steps| - 1]), steps[|steps| - 1]);
    }
  }
}

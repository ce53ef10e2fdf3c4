/** The progress view of a contract: how many steps there are, how many are
    completed, the share completed in percent, the number of participants,
    and whether the contract is complete. Always recomputed from a contract
    snapshot. */
module Progress {
  import opened Types

  /** `progressPercent` is the exact ratio; the source computes it in `f64`. */
  datatype ContractProgress = ContractProgress(
    totalSteps: nat,
    completedSteps: nat,
    progressPercent: real,
    participantCount: nat,
    isComplete: bool)

  /** The number of steps marked completed (the source's
      `filter(|step| step.completed).count()`). */
  function CompletedCount<M>(steps: seq<ContractStep<M>>): (n: nat)
    ensures n <= |steps|
    decreases |steps|
  {
    if |steps| == 0 then 0
    else (if steps[0].completed then 1 else 0) + CompletedCount(steps[1..])
  }

  /** Every step is completed exactly when all of them are counted. */
  lemma {:induction false} AllCompletedIff<M>(steps: seq<ContractStep<M>>)
    ensures CompletedCount(steps) == |steps| <==> forall i :: 0 <= i < |steps| ==> steps[i].completed
    decreases |steps|
  {
    if |steps| > 0 {
      AllCompletedIff(steps[1..]);
      if !steps[0].completed {
        assert CompletedCount(steps) <= |steps| - 1;
      }
      assert forall i :: 1 <= i < |steps| ==> steps[i] == steps[1..][i - 1];
    }
  }

  /** No step is completed exactly when none is counted. */
  lemma {:induction false} NoneCompletedIff<M>(steps: seq<ContractStep<M>>)
    ensures CompletedCount(steps) == 0 <==> forall i :: 0 <= i < |steps| ==> !steps[i].completed
    decreases |steps|
  {
    if |steps| > 0 {
      NoneCompletedIff(steps[1..]);
      assert forall i :: 1 <= i < |steps| ==> steps[i] == steps[1..][i - 1];
    }
  }

  /** The count of a concatenation is the sum of the counts. */
  lemma {:induction false} CompletedCountAppend<M>(a: seq<ContractStep<M>>, b: seq<ContractStep<M>>)
    ensures CompletedCount(a + b) == CompletedCount(a) + CompletedCount(b)
    decreases |a|
  {
    if |a| > 0 {
      CompletedCountAppend(a[1..], b);
      assert (a + b)[1..] == a[1..] + b;
      assert (a + b)[0] == a[0];
    } else {
      assert a + b == b;
    }
  }

  /** The progress of a contract. The percentage is zero for a contract
      without steps; such a contract counts as complete. */
  function GetContractProgress<M>(contract: Contract<M>): (p: ContractProgress)
    ensures p.totalSteps == |contract.steps|
    ensures p.participantCount == |contract.participants|
    ensures p.completedSteps == CompletedCount(contract.steps) <= p.totalSteps
    ensures p.isComplete <==> forall i :: 0 <= i < |contract.steps| ==> contract.steps[i].completed
    ensures p.totalSteps == 0 ==> p.isComplete && p.progressPercent == 0.0
    ensures p.totalSteps > 0 ==> p.progressPercent * p.totalSteps as real == p.completedSteps as real * 100.0
    ensures 0.0 <= p.progressPercent <= 100.0
    ensures p.progressPercent == 100.0 <==> p.totalSteps > 0 && p.isComplete
  {
    var total := |contract.steps|;
    var completed := CompletedCount(contract.steps);
    AllCompletedIff(contract.steps);
    var percent := if total > 0 then Percent(completed, total) else 0.0;
    ContractProgress(total, completed, percent, |contract.participants|, completed == total)
  }

  /** `completed / total * 100` as an exact ratio. */
  function Percent(completed: nat, total: nat): (r: real)
    requires 0 < total && completed <= total
    ensures r * total as real == completed as real * 100.0
    ensures 0.0 <= r <= 100.0
    ensures r == 100.0 <==> completed == total
  {
    var c, t := completed as real, total as real;
    var q := c / t;
    RatioTimesWhole(c, t);
    RatioBounds(c, t);
    RatioIsOne(c, t);
    assert (q * 100.0) * t == (q * t) * 100.0;
    q * 100.0
  }

  // Facts about the ratio of a part `c` to a positive whole `t`, stated one
  // per lemma to keep each proof obligation small.

  lemma RatioTimesWhole(c: real, t: real)
    requires 0.0 < t && 0.0 <= c <= t
    ensures (c / t) * t == c
  {
  }

  lemma RatioBounds(c: real, t: real)
    requires 0.0 < t && 0.0 <= c <= t
    ensures 0.0 <= c / t <= 1.0
  {
  }

  lemma RatioIsOne(c: real, t: real)
    requires 0.0 < t && 0.0 <= c <= t
    ensures c / t == 1.0 <==> c == t
  {
  }
}

/** The status and progress of a job, rolled up from its executions. */
module StatusRollup {
  import opened Options
  import opened Arith

  datatype Execution = Execution(status: string, progress: int)

  /** What is written to the job's row. */
  datatype JobRow = JobRow(status: string, progress: int)

  function Decide(total: nat, completed: nat, failed: nat, running: nat, cancelled: nat): string {
    if cancelled == total then "cancelled"
    else if completed == total then "completed"
    else if failed > 0 && running == 0 && completed + failed + cancelled == total then "failed"
    else if running > 0 || completed > 0 then "running"
    else if cancelled > 0 && cancelled + completed + failed == total then "cancelled"
    else "ready"
  }

  function CountOf(es: seq<Execution>, status: string): (n: nat)
    ensures n <= |es|
  {
    if es == [] then 0
    else CountOf(es[..|es| - 1], status) + (if es[|es| - 1].status == status then 1 else 0)
  }

  function Progress(es: seq<Execution>): int {
    if es == [] then 0 else Progress(es[..|es| - 1]) + es[|es| - 1].progress
  }

  method UpdateJobProgress(jobId: string, executions: seq<Execution>) returns (update: Option<JobRow>)
    ensures update.None? <==> jobId == "" || executions == []
    ensures update.Some? ==> update.value == Rollup(executions)
  {
    if jobId == "" {
      return None;
    }
    if |executions| == 0 {
      return None;
    }
    var totalExecutions := |executions|;
    var completedCount, failedCount, runningCount, cancelledCount, totalProgress := 0, 0, 0, 0, 0;
    for i := 0 to |executions|
      invariant completedCount == CountOf(executions[..i], "completed")
      invariant failedCount == CountOf(executions[..i], "failed")
      invariant runningCount == CountOf(executions[..i], "running")
      invariant cancelledCount == CountOf(executions[..i], "cancelled")
      invariant totalProgress == Progress(executions[..i])
    {
      var execution := executions[i];
      assert executions[..i + 1][..i] == executions[..i];
      totalProgress := totalProgress + execution.progress;
      if execution.status == "completed" {
        completedCount := completedCount + 1;
      } else if execution.status == "failed" {
        failedCount := failedCount + 1;
      } else if execution.status == "running" {
        runningCount := runningCount + 1;
      } else if execution.status == "cancelled" {
        cancelledCount := cancelledCount + 1;
      }
    }
    assert executions[..|executions|] == executions;
    var averageProgress := TruncDiv(totalProgress, totalExecutions);
    return Some(JobRow(Decide(totalExecutions, completedCount, failedCount, runningCount, cancelledCount),
      averageProgress));
  }

  function Rollup(es: seq<Execution>): JobRow
    requires es != []
  {
    JobRow(Decide(|es|, CountOf(es, "completed"), CountOf(es, "failed"), CountOf(es, "running"),
      CountOf(es, "cancelled")),
           TruncDiv(Progress(es), |es|))
  }

  // ---------------------------------------------------------------- what the counts mean

  predicate Terminal(status: string) { status == "completed" || status == "failed" || status == "cancelled" }

  ghost predicate AllAre(es: seq<Execution>, status: string) { forall i :: 0 <= i < |es| ==> es[i].status == status }

  ghost predicate AnyIs(es: seq<Execution>, status: string) { exists i :: 0 <= i < |es| && es[i].status == status }

  ghost predicate AllTerminal(es: seq<Execution>) { forall i :: 0 <= i < |es| ==> Terminal(es[i].status) }

  lemma LastOne(es: seq<Execution>, status: string)
    requires es != []
    ensures var n := |es| - 1;
      && (AllAre(es, status) <==> AllAre(es[..n], status) && es[n].status == status)
      && (AnyIs(es, status) <==> AnyIs(es[..n], status) || es[n].status == status)
  {
    var n := |es| - 1;
    assert forall i :: 0 <= i < n ==> es[..n][i] == es[i];
    if AnyIs(es, status) {
      var i :| 0 <= i < |es| && es[i].status == status;
      assert i < n ==> es[..n][i].status == status;
    }
    if AnyIs(es[..n], status) {
      var i :| 0 <= i < n && es[..n][i].status == status;
      assert es[i].status == status;
    }
  }

  lemma {:induction false} CountMeaning(es: seq<Execution>, status: string)
    ensures CountOf(es, status) == |es| <==> AllAre(es, status)
    ensures CountOf(es, status) > 0 <==> AnyIs(es, status)
    decreases |es|
  {
    if es != [] {
      CountMeaning(es[..|es| - 1], status);
      LastOne(es, status);
      hide AllAre, AnyIs;
    }
  }

  lemma {:induction false} CountTerminal(es: seq<Execution>)
    ensures CountOf(es, "completed") + CountOf(es, "failed") + CountOf(es, "cancelled") + CountOf(es, "running") <= |es|
    ensures CountOf(es, "completed") + CountOf(es, "failed") + CountOf(es, "cancelled") == |es| <==> AllTerminal(es)
    decreases |es|
  {
    if es != [] {
      var n := |es| - 1;
      CountTerminal(es[..n]);
      assert forall i :: 0 <= i < n ==> es[..n][i] == es[i];
    }
  }

  /**
   * The roll-up in closed form, for any executions and any status strings. The second cancelled branch is never the
   * one taken: "cancelled" means that all are.
   */
  lemma StatusIff(es: seq<Execution>)
    requires es != []
    ensures var status := Rollup(es).status;
      && (status == "cancelled" <==> AllAre(es, "cancelled"))
      && (status == "completed" <==> AllAre(es, "completed"))
      && (status == "failed" <==> AllTerminal(es) && AnyIs(es, "failed"))
      && (status == "ready" <==> !AnyIs(es, "running") && !AnyIs(es, "completed") && !AllTerminal(es))
      && (status == "running" <==>
            AnyIs(es, "running")
              || (AnyIs(es, "completed") && !AllAre(es, "completed") && !(AllTerminal(es) && AnyIs(es, "failed"))))
  {
    CountMeaning(es, "completed");
    CountMeaning(es, "failed");
    CountMeaning(es, "running");
    CountMeaning(es, "cancelled");
    CountTerminal(es);
    hide CountOf, AllAre, AllTerminal, AnyIs;
  }

  // ---------------------------------------------------------------- order does not matter

  lemma Without(es: seq<Execution>, k: nat)
    requires k < |es|
    ensures multiset(es[..k] + es[k + 1..]) == multiset(es) - multiset{es[k]}
  {
    assert es == es[..k] + [es[k]] + es[k + 1..];
  }

  lemma {:induction false} CountIsMultiplicity(es: seq<Execution>, other: seq<Execution>, status: string)
    requires multiset(es) == multiset(other)
    ensures CountOf(es, status) == CountOf(other, status) && Progress(es) == Progress(other)
    decreases |es|
  {
    assert |es| == |multiset(es)| == |multiset(other)| == |other|;
    if es != [] {
      var n := |es| - 1;
      Without(es, n);
      assert es[..n] + es[n + 1..] == es[..n];
      assert es[n] in multiset(es) && es[n] in multiset(other);
      var k :| 0 <= k < |other| && other[k] == es[n];
      var rest := other[..k] + other[k + 1..];
      Without(other, k);
      CountIsMultiplicity(es[..n], rest, status);
      TakeOut(other, k, status);
    }
  }

  lemma CutBeforeLast(es: seq<Execution>, k: nat)
    requires k < |es|
    ensures var n := |es| - 1;
      var rest := es[..k] + es[k + 1..];
      if k == n then rest == es[..n]
      else
        && rest != [] && rest[..|rest| - 1] == es[..n][..k] + es[..n][k + 1..] && rest[|rest| - 1] == es[n]
        && es[..n][k] == es[k]
  {}

  lemma LastCounts(es: seq<Execution>, status: string)
    requires es != []
    ensures var n := |es| - 1;
      && CountOf(es, status) == CountOf(es[..n], status) + (if es[n].status == status then 1 else 0)
      && Progress(es) == Progress(es[..n]) + es[n].progress
  {}

  lemma {:induction false} TakeOut(es: seq<Execution>, k: nat, status: string)
    requires k < |es|
    ensures CountOf(es, status) == CountOf(es[..k] + es[k + 1..], status) + (if es[k].status == status then 1 else 0)
    ensures Progress(es) == Progress(es[..k] + es[k + 1..]) + es[k].progress
    decreases |es|
  {
    var n := |es| - 1;
    CutBeforeLast(es, k);
    if k < n {
      TakeOut(es[..n], k, status);
      LastCounts(es, status);
      LastCounts(es[..k] + es[k + 1..], status);
    } else {
      LastCounts(es, status);
    }
    hide CountOf, Progress;
  }

  /** The row depends only on the multiset of executions. */
  lemma OrderIrrelevant(es: seq<Execution>, other: seq<Execution>)
    requires es != [] && multiset(es) == multiset(other)
    ensures other != [] && Rollup(es) == Rollup(other)
  {
    assert |es| == |multiset(es)| == |multiset(other)| == |other|;
    CountIsMultiplicity(es, other, "completed");
    CountIsMultiplicity(es, other, "failed");
    CountIsMultiplicity(es, other, "running");
    CountIsMultiplicity(es, other, "cancelled");
  }

  // ---------------------------------------------------------------- progress

  lemma {:induction false} ProgressBounds(es: seq<Execution>, lo: int, hi: int)
    requires forall i :: 0 <= i < |es| ==> lo <= es[i].progress <= hi
    ensures lo * |es| <= Progress(es) <= hi * |es|
    decreases |es|
  {
    if es != [] { ProgressBounds(es[..|es| - 1], lo, hi); }
  }

  /** The average stays within whatever bounds all executions keep. */
  lemma AverageWithin(es: seq<Execution>, lo: int, hi: int)
    requires es != [] && forall i :: 0 <= i < |es| ==> lo <= es[i].progress <= hi
    ensures lo <= Rollup(es).progress <= hi
  {
    ProgressBounds(es, lo, hi);
    QuotientWithin(Progress(es), |es|, lo, hi);
  }

  /**
   * The average is the sum divided by the number of executions, rounded toward zero: multiplied back it falls short of
   * the sum by less than the number of executions, and never goes beyond it.
   */
  lemma AverageRoundsTowardZero(es: seq<Execution>)
    requires es != []
    ensures var a, n, sum := Rollup(es).progress, |es|, Progress(es);
      if sum >= 0 then a * n <= sum < a * n + n else a * n - n < sum <= a * n
  {
    Multiplied(Progress(es), |es|);
  }

  lemma Multiplied(sum: int, n: nat)
    requires n > 0
    ensures var a := TruncDiv(sum, n); if sum >= 0 then a * n <= sum < a * n + n else a * n - n < sum <= a * n
  {
    var m := if sum >= 0 then sum else -sum;
    assert m == m / n * n + m % n;
  }

  /** The sum is that of the executions' own progress: it is zero for none, and one more adds its own. */
  lemma ProgressIsSum(es: seq<Execution>, e: Execution)
    ensures Progress([]) == 0 && Progress(es + [e]) == Progress(es) + e.progress
  {
    assert (es + [e])[..|es|] == es;
  }

  lemma QuotientWithin(sum: int, n: nat, lo: int, hi: int)
    requires n > 0 && lo * n <= sum <= hi * n
    ensures lo <= TruncDiv(sum, n) <= hi
  {
    var q := TruncDiv(sum, n);
    assert q < lo ==> (q + 1) * n <= lo * n;
    assert q > hi ==> hi * n <= (q - 1) * n;
  }
}

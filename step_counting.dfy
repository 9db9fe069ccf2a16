/**
 * The step-counting commit rule of `Transaction.Commit`
 * (OpenWebby.Data/Common/Transaction.cs): every call counts one step, and the real
 * commit happens only on the call whose count equals the declared number of tasks.
 */
module StepCounting {

  /**
   * The guard of the real commit, evaluated after the step has been counted. Its
   * `runningStep != 0` test is redundant: the commit fires exactly on step number `tasks`.
   */
  predicate CommitFires(tasks: int, runningStep: int, begun: bool): (r: bool)
    ensures r <==> tasks > 0 && runningStep == tasks && begun
  {
    tasks > 0 && runningStep != 0 && tasks == runningStep && begun
  }

  /** Number of real commits made by `k` more calls of Commit on a transaction at step `start`. */
  function Commits(tasks: int, begun: bool, start: int, k: nat): nat
    decreases k
  {
    if k == 0 then 0
    else (if CommitFires(tasks, start + 1, begun) then 1 else 0) + Commits(tasks, begun, start + 1, k - 1)
  }

  /** From any step, `k` calls commit at most once, and exactly once when they pass step `tasks`. */
  lemma {:induction false} CommitsAtMostOnce(tasks: int, begun: bool, start: int, k: nat)
    ensures Commits(tasks, begun, start, k) == if tasks > 0 && begun && start < tasks <= start + k then 1 else 0
    decreases k
  {
    if k > 0 {
      CommitsAtMostOnce(tasks, begun, start + 1, k - 1);
    }
  }

  /** A begun transaction declared with n > 0 tasks: none of the first n - 1 steps commits, the n-th does, and later ones do not. */
  lemma SharedTransactionCommitsOnce(n: int, k: nat)
    requires n > 0
    ensures Commits(n, true, 0, k) == if k < n then 0 else 1
  {
    CommitsAtMostOnce(n, true, 0, k);
  }

  /** With zero (or negative) declared tasks no number of steps ever commits. */
  lemma NoTasksNeverCommit(tasks: int, begun: bool, start: int, k: nat)
    requires tasks <= 0
    ensures Commits(tasks, begun, start, k) == 0
  {
    CommitsAtMostOnce(tasks, begun, start, k);
  }

  /** A transaction that was never begun (no native handle) never commits. */
  lemma UnbegunNeverCommits(tasks: int, start: int, k: nat)
    ensures Commits(tasks, false, start, k) == 0
  {
    CommitsAtMostOnce(tasks, false, start, k);
  }
}

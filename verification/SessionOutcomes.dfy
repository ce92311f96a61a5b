/**
  What becomes of every job over the runs of SessionProtocol: a task takes its jobs one after the
  other, and a job is missing from the history only for a reason (src/session_lock.rs, src/sender.rs).
 */
module SessionOutcomes {
  import opened Prelude
  import opened SessionProtocol

  datatype Move = Move(task: nat, choice: Choice)

  /** A run together with who moved, and how. */
  ghost predicate IsTrace(run: seq<State>, moves: seq<Move>) {
    && |run| == |moves| + 1 && Init(run[0])
    && forall i :: 0 <= i < |moves| ==> Moves(run, moves, i)
  }

  ghost predicate Moves(run: seq<State>, moves: seq<Move>, i: nat)
    requires |run| == |moves| + 1 && i < |moves|
  {
    Enabled(run[i], moves[i].task, moves[i].choice) && run[i + 1] == Step(run[i], moves[i].task, moves[i].choice)
  }

  lemma TraceIsRun(run: seq<State>, moves: seq<Move>)
    requires IsTrace(run, moves)
    ensures IsRun(run)
  {
    forall i | 0 <= i < |run| - 1
      ensures Next(run[i], run[i + 1])
    {
      assert Moves(run, moves, i);
    }
  }

  lemma {:induction false} RunHasTrace(run: seq<State>) returns (moves: seq<Move>)
    requires IsRun(run)
    ensures IsTrace(run, moves)
  {
    moves := [];
    if |run| > 1 {
      var n := |run| - 1;
      var earlier := RunHasTrace(run[..n]);
      assert Next(run[n - 1], run[n - 1 + 1]);
      var t: nat, c :| Enabled(run[n - 1], t, c) && run[n] == Step(run[n - 1], t, c);
      moves := earlier + [Move(t, c)];
      forall i | 0 <= i < n
        ensures Moves(run, moves, i)
      {
        assert i < n - 1 ==> Moves(run[..n], earlier, i);
      }
    }
  }

  // -- jobs in order ------------------------------------------------------------------

  /**
    A step ends at most one job, the current one of the task that moves: as finished, by a failure
    after which the task goes on to its next job, or together with all later ones when it is cancelled.
   */
  lemma WhatAStepEnds(s: State, t: nat, c: Choice, u: nat)
    requires Enabled(s, t, c) && u < |s.tasks|
    ensures var s', was := Step(s, t, c), s.tasks[u].at;
            && |s'.tasks| == |s.tasks| && s'.tasks[u].jobs == s.tasks[u].jobs
            && if u != t then s'.tasks[u].at == was && forall j: nat :: (u, j) in s'.finished <==> (u, j) in s.finished
               else if c.Cancel? then s'.tasks[u].at == |s.tasks[u].jobs| && s'.finished == s.finished
               else if c.Fail? then s'.tasks[u].at == was + 1 && s'.finished == s.finished
               else || (s'.tasks[u].at == was && s'.finished == s.finished)
                    || (s'.tasks[u].at == was + 1 && s'.finished == s.finished + {(u, was)})
  {
  }

  /** Before move `n` task `t` failed in job `j`. */
  ghost predicate Failed(run: seq<State>, moves: seq<Move>, n: nat, t: nat, j: nat)
    requires |run| == |moves| + 1 && n <= |moves|
  {
    exists i :: 0 <= i < n && moves[i] == Move(t, Fail) && t < |run[i].tasks| && run[i].tasks[t].at == j
  }

  /** Before move `n` task `t` was cancelled, in job `j` or earlier. */
  ghost predicate GivenUp(run: seq<State>, moves: seq<Move>, n: nat, t: nat, j: nat)
    requires |run| == |moves| + 1 && n <= |moves|
  {
    exists i :: 0 <= i < n && moves[i] == Move(t, Cancel) && t < |run[i].tasks| && run[i].tasks[t].at <= j
  }

  lemma OneMoveMore(run: seq<State>, moves: seq<Move>, n: nat, t: nat, j: nat)
    requires |run| == |moves| + 1 && n < |moves| && t < |run[n].tasks|
    ensures Failed(run, moves, n + 1, t, j) <==>
              Failed(run, moves, n, t, j) || (moves[n] == Move(t, Fail) && run[n].tasks[t].at == j)
    ensures GivenUp(run, moves, n + 1, t, j) <==>
              GivenUp(run, moves, n, t, j) || (moves[n] == Move(t, Cancel) && run[n].tasks[t].at <= j)
  {
    if moves[n] == Move(t, Fail) && run[n].tasks[t].at == j {
      assert Failed(run, moves, n + 1, t, j);
    }
    if moves[n] == Move(t, Cancel) && run[n].tasks[t].at <= j {
      assert GivenUp(run, moves, n + 1, t, j);
    }
  }

  /** A job the task has left behind finished, unless it failed or was given up; about a later one nothing is known yet. */
  ghost predicate Accounted(run: seq<State>, moves: seq<Move>, n: nat, t: nat, j: nat)
    requires |run| == |moves| + 1 && n <= |moves| && t < |run[n].tasks|
  {
    var lost := Failed(run, moves, n, t, j) || GivenUp(run, moves, n, t, j);
    if j < run[n].tasks[t].at then (t, j) in run[n].finished <==> !lost
    else (t, j) !in run[n].finished && !lost
  }

  lemma {:induction false} JobsAreAccountedFor(run: seq<State>, moves: seq<Move>, n: nat, t: nat, j: nat)
    requires IsTrace(run, moves) && n <= |moves| && t < |run[0].tasks| && j < |run[0].tasks[t].jobs|
    ensures |run[n].tasks| == |run[0].tasks| && run[n].tasks[t].jobs == run[0].tasks[t].jobs
    ensures Accounted(run, moves, n, t, j)
  {
    if n > 0 {
      JobsAreAccountedFor(run, moves, n - 1, t, j);
      assert Moves(run, moves, n - 1);
      WhatAStepEnds(run[n - 1], moves[n - 1].task, moves[n - 1].choice, t);
      OneMoveMore(run, moves, n - 1, t, j);
    }
  }

  /**
    When nothing can move any more, a job has run to its end if and only if its task did not fail in
    it and had not been cancelled by then.
   */
  lemma EveryJobEnds(run: seq<State>, moves: seq<Move>, t: nat, j: nat)
    requires IsTrace(run, moves) && t < |run[0].tasks| && j < |run[0].tasks[t].jobs| && Stuck(run[|moves|])
    ensures (t, j) in run[|moves|].finished <==>
              !Failed(run, moves, |moves|, t, j) && !GivenUp(run, moves, |moves|, t, j)
  {
    TraceIsRun(run, moves);
    EveryRunEnds(run);
    JobsAreAccountedFor(run, moves, |moves|, t, j);
  }

  /** If nobody fails or is cancelled, every cycle of every job of every task ends up in the log. */
  lemma AllWorkIsDone(run: seq<State>, moves: seq<Move>, c: Commit)
    requires IsTrace(run, moves) && Stuck(run[|moves|]) && forall i :: 0 <= i < |moves| ==> moves[i].choice.Go?
    ensures c in run[|moves|].log <==> Known(JobsOf(run[0]), c)
  {
    TraceIsRun(run, moves);
    RunKeepsInv(run, |moves|);
    if Known(JobsOf(run[0]), c) {
      EveryJobEnds(run, moves, c.task, c.job);
      FinishedJobsTookEffect(run, c.task, c.job, c.cycle);
    }
  }

  // -- stores in order ----------------------------------------------------------------

  predicate Earlier(c: Commit, d: Commit) {
    c.job < d.job || (c.job == d.job && c.cycle < d.cycle)
  }

  /** Each task's stores stand in the order of its jobs and, within a job, of its cycles. */
  ghost predicate ProgramOrder(log: seq<Commit>) {
    forall i, j :: 0 <= i < j < |log| && log[i].task == log[j].task ==> Earlier(log[i], log[j])
  }

  lemma StepKeepsOrder(s: State, t: nat, c: Choice)
    requires Inv0(s) && LogSound(s) && ProgramOrder(s.log) && Enabled(s, t, c)
    ensures ProgramOrder(Step(s, t, c).log)
  {
    StepExtendsLog(s, t, c);
    if Commits(s, t, c) {
      forall i | 0 <= i < |s.log| && s.log[i].task == t
        ensures Earlier(s.log[i], Commit(t, s.tasks[t].at, s.tasks[t].pc.done))
      {
        assert LoggedOk(s, s.log[i]);
      }
    }
  }

  lemma {:induction false} StoresInProgramOrder(run: seq<State>, i: nat)
    requires IsRun(run) && i < |run|
    ensures ProgramOrder(run[i].log)
  {
    if i > 0 {
      StoresInProgramOrder(run, i - 1);
      RunKeepsInv(run, i - 1);
      assert Next(run[i - 1], run[i - 1 + 1]);
      var t: nat, c :| Enabled(run[i - 1], t, c) && run[i] == Step(run[i - 1], t, c);
      StepKeepsOrder(run[i - 1], t, c);
    }
  }
}

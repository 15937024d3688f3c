/** When the worker threads can leave run(): stop() joins them, so it returns only if they all do. */
module WorkerExits {
  import opened Sequences
  import opened TaskQueue
  import opened Workers

  // A step of the workers and of the fibers they run, as opposed to what others do to the pool.
  predicate WorkerStep(e: Event) {
    !e.Push? && !e.Make? && !e.Stop?
  }

  ghost predicate LeavesBy(s: Pool, es: seq<Event>, t: nat) {
    && Legal(s, es) && (forall e | e in es :: WorkerStep(e))
    && t in Run(s, es).pcs && Run(s, es).pcs[t] == Exited
  }

  ghost predicate FinishesBy(s: Pool, es: seq<Event>, x: Task) {
    Legal(s, es) && (forall e | e in es :: WorkerStep(e)) && x.ticket in Run(s, es).done
  }

  // ---- What such steps leave as it is --------------------------------------------------------------

  // The threads there are, stop() or not, and who is not gone.
  ghost predicate NoneLost(s: Pool, s': Pool) {
    s'.pcs.Keys == s.pcs.Keys && s'.stopping == s.stopping && forall u | Gone(s', u) :: Gone(s, u)
  }

  lemma StepLosesNone(s: Pool, e: Event)
    requires Enabled(s, e) && WorkerStep(e) && (e.TakeTask? ==> FirstEligible(s.tasks, e.t) < |s.tasks|)
    ensures NoneLost(s, Next(s, e))
  {
  }

  lemma {:induction false} RunLosesNone(s: Pool, es: seq<Event>)
    requires Legal(s, es) && forall e | e in es :: Homeward(e)
    ensures NoneLost(s, Run(s, es))
    decreases |es|
  {
    if es != [] {
      assert Homeward(es[0]);
      StepLosesNone(s, es[0]);
      RunLosesNone(Next(s, es[0]), es[1..]);
    }
  }

  lemma {:induction false} HandingKeeps(s: Pool, es: seq<Event>)
    requires Legal(s, es) && forall e | e in es :: Handing(e)
    ensures var s' := Run(s, es); s'.active == s.active && s'.done == s.done
    decreases |es|
  {
    if es != [] {
      assert Handing(es[0]);
      HandingKeeps(Next(s, es[0]), es[1..]);
    }
  }

  // ---- A thread with a task --------------------------------------------------------------------------

  // It is done with the task and back at the top.
  ghost predicate Done(s: Pool, s': Pool, t: nat)
    requires t in s.pcs && Busy(s.pcs[t])
  {
    && Inv(s') && NoneLost(s, s') && t in s'.pcs && s'.pcs[t] == Top && s.pcs[t].task.ticket in s'.done
    && s'.tasks == s.tasks && s'.idleTerm == s.idleTerm && s'.active == s.active - 1
  }

  lemma ReleasedIsDone(s: Pool, t: nat)
    requires Inv(s) && t in s.pcs && s.pcs[t].Released?
    ensures Enabled(s, Finish(t)) && Done(s, Next(s, Finish(t)), t)
  {
    StepKeepsInv(s, Finish(t));
    StepLosesNone(s, Finish(t));
    assert t in BusyThreads(s.pcs);
  }

  lemma OneStepMoves(s: Pool, t: nat)
    requires t in s.pcs && Busy(s.pcs[t]) && !s.pcs[t].InHand? && !s.pcs[t].Released?
    ensures var e := Onward(s.pcs[t], t);
            && Enabled(s, e) && Plain(e) && !e.TakeTask?
            && var s' := Next(s, e);
            && t in s'.pcs && Busy(s'.pcs[t]) && s'.pcs[t].task == s.pcs[t].task && Rank(s'.pcs[t]) < Rank(s.pcs[t])
            && s'.tasks == s.tasks && s'.idleTerm == s.idleTerm && s'.active == s.active && s'.done == s.done
  {
  }

  lemma OneStepOn(s: Pool, t: nat)
    requires Inv(s) && t in s.pcs && Busy(s.pcs[t]) && !s.pcs[t].InHand? && !s.pcs[t].Released?
    ensures var e := Onward(s.pcs[t], t);
            && Enabled(s, e) && Plain(e)
            && var s' := Next(s, e);
            && Inv(s') && NoneLost(s, s') && t in s'.pcs && Busy(s'.pcs[t]) && s'.pcs[t].task == s.pcs[t].task
            && Rank(s'.pcs[t]) < Rank(s.pcs[t])
            && s'.tasks == s.tasks && s'.idleTerm == s.idleTerm && s'.active == s.active && s'.done == s.done
  {
    OneStepMoves(s, t);
    StepKeepsInv(s, Onward(s.pcs[t], t));
    StepLosesNone(s, Onward(s.pcs[t], t));
  }

  // A thread can always finish its task.
  lemma {:induction false} CanFinish(s: Pool, t: nat) returns (es: seq<Event>)
    requires Inv(s) && t in s.pcs && Busy(s.pcs[t])
    ensures Legal(s, es) && (forall e | e in es :: WorkerStep(e)) && Done(s, Run(s, es), t)
    decreases Rank(s.pcs[t])
  {
    if s.pcs[t].Released? {
      ReleasedIsDone(s, t);
      Prepend(s, Finish(t), []);
      es := [Finish(t)] + [];
    } else if s.pcs[t].InHand? {
      var first := CanLock(s, t);
      HandingKeeps(s, first);
      RunLosesNone(s, first);
      var rest := CanFinish(Run(s, first), t);
      Concat(s, first, rest);
      es := first + rest;
    } else {
      var e := Onward(s.pcs[t], t);
      OneStepOn(s, t);
      var rest := CanFinish(Next(s, e), t);
      Prepend(s, e, rest);
      es := [e] + rest;
    }
  }

  // A thread that has locked a fiber enters it if and only if its function has not returned; inside, the
  // fiber may yield or return, and stays READY or TERM then.
  lemma EntersIffAlive(s: Pool, t: nat)
    requires Inv(s) && t in s.pcs && s.pcs[t].Locked?
    ensures Enabled(s, Resume(t)) && s.pcs[t].fiber in s.fibers
    ensures InsideOf(Next(s, Resume(t)), t, s.pcs[t].fiber) <==> s.fibers[s.pcs[t].fiber] != TERM
    ensures !InsideOf(Next(s, Resume(t)), t, s.pcs[t].fiber) ==>
              Next(s, Resume(t)).pcs[t].Back? && Next(s, Resume(t)).fibers == s.fibers
  {
  }

  lemma YieldsOrEnds(s: Pool, t: nat)
    requires Inv(s) && t in s.pcs && s.pcs[t].Inside?
    ensures Enabled(s, Yield(t)) && Enabled(s, Terminate(t))
    ensures var f := s.pcs[t].fiber;
            && f in s.fibers && Next(s, Yield(t)).fibers == s.fibers[f := READY]
            && Next(s, Terminate(t)).fibers == s.fibers[f := TERM]
            && Next(s, Yield(t)).pcs[t].Back? && Next(s, Terminate(t)).pcs[t].Back?
  {
  }

  // ---- Emptying the queue ------------------------------------------------------------------------------

  ghost predicate SomeoneLeftFor(s: Pool, x: Task) {
    exists t :: t in s.pcs && Eligible(x, t) && !Gone(s, t)
  }

  lemma TakeOne(s: Pool, t: nat, x: Task)
    requires Inv(s) && t in s.pcs && s.pcs[t] == Top && x in s.tasks && Eligible(x, t)
    ensures Enabled(s, TakeTask(t))
    ensures var s' := Next(s, TakeTask(t));
            Inv(s') && NoneLost(s, s') && |s'.tasks| < |s.tasks| && forall y | y in s'.tasks :: y in s.tasks
  {
    TakeMoves(s, t, x);
    StepKeepsInv(s, TakeTask(t));
    StepLosesNone(s, TakeTask(t));
  }

  // Such a thread comes back and takes a task.
  lemma ComesBackFor(s: Pool, t: nat, x: Task) returns (back: seq<Event>)
    requires Inv(s) && x in s.tasks && t in s.pcs && Eligible(x, t) && !Gone(s, t)
    ensures Legal(s, back) && (forall e | e in back :: WorkerStep(e)) && Enabled(Run(s, back), TakeTask(t))
    ensures var s' := Next(Run(s, back), TakeTask(t));
            Inv(s') && NoneLost(s, s') && |s'.tasks| < |s.tasks| && forall y | y in s'.tasks :: y in s.tasks
  {
    back := CanComeBack(s, t);
    RunLosesNone(s, back);
    TakeOne(Run(s, back), t, x);
  }

  lemma CanShorten(s: Pool) returns (es: seq<Event>)
    requires Inv(s) && s.tasks != [] && forall x | x in s.tasks :: SomeoneLeftFor(s, x)
    ensures Legal(s, es) && forall e | e in es :: WorkerStep(e)
    ensures var s' := Run(s, es);
            Inv(s') && NoneLost(s, s') && |s'.tasks| < |s.tasks| && forall y | y in s'.tasks :: y in s.tasks
  {
    var x := s.tasks[0];
    assert SomeoneLeftFor(s, x);
    var t :| t in s.pcs && Eligible(x, t) && !Gone(s, t);
    var back := ComesBackFor(s, t, x);
    Prepend(Run(s, back), TakeTask(t), []);
    Concat(s, back, [TakeTask(t)] + []);
    es := back + ([TakeTask(t)] + []);
  }

  lemma StillSomeone(s: Pool, s': Pool)
    requires NoneLost(s, s') && forall x | x in s.tasks :: SomeoneLeftFor(s, x)
    requires forall y | y in s'.tasks :: y in s.tasks
    ensures forall x | x in s'.tasks :: SomeoneLeftFor(s', x)
  {
    forall x | x in s'.tasks ensures SomeoneLeftFor(s', x) {
      var t :| t in s.pcs && Eligible(x, t) && !Gone(s, t);
      assert t in s'.pcs.Keys;
    }
  }

  lemma {:induction false} CanEmpty(s: Pool) returns (es: seq<Event>)
    requires Inv(s) && forall x | x in s.tasks :: SomeoneLeftFor(s, x)
    ensures Legal(s, es) && forall e | e in es :: WorkerStep(e)
    ensures Inv(Run(s, es)) && NoneLost(s, Run(s, es)) && Run(s, es).tasks == []
    decreases |s.tasks|
  {
    es := [];
    if s.tasks != [] {
      var first := CanShorten(s);
      StillSomeone(s, Run(s, first));
      var rest := CanEmpty(Run(s, first));
      Concat(s, first, rest);
      es := first + rest;
    }
  }

  // And then finish what is in hand.
  lemma {:induction false} CanQuieten(s: Pool) returns (es: seq<Event>)
    requires Inv(s) && s.tasks == []
    ensures Legal(s, es) && forall e | e in es :: WorkerStep(e)
    ensures var s' := Run(s, es); Inv(s') && NoneLost(s, s') && s'.tasks == [] && s'.active == 0
    decreases s.active
  {
    es := [];
    if s.active > 0 {
      var t := Member(BusyThreads(s.pcs));
      var first := CanFinish(s, t);
      var rest := CanQuieten(Run(s, first));
      Concat(s, first, rest);
      es := first + rest;
    }
  }

  // ---- The way out -------------------------------------------------------------------------------------

  function StepsOut(s: Pool, t: nat): nat
    requires t in s.pcs
  {
    if s.pcs[t].Exited? then 0
    else (if t in s.idleTerm then 0 else 2) + (if s.pcs[t] == Top then 2 else 1)
  }

  // In a quiet pool a worker finds no task, resumes its idle fiber, which ends, finds no task again, and
  // leaves.
  lemma OneStepOut(s: Pool, t: nat)
    requires Inv(s) && Quiet(s) && t in s.pcs && !s.pcs[t].Exited?
    ensures var e := if s.pcs[t] == Top then TakeTask(t) else Idle(t);
            && Enabled(s, e)
            && var s' := Next(s, e);
            Inv(s') && Quiet(s') && t in s'.pcs && StepsOut(s', t) < StepsOut(s, t)
  {
    var e := if s.pcs[t] == Top then TakeTask(t) else Idle(t);
    assert BusyThreads(s.pcs) == {};
    assert Busy(s.pcs[t]) ==> t in BusyThreads(s.pcs);
    StepKeepsInv(s, e);
  }

  lemma {:induction false} QuietLeaves(s: Pool, t: nat) returns (es: seq<Event>)
    requires Inv(s) && Quiet(s) && t in s.pcs
    ensures LeavesBy(s, es, t)
    decreases StepsOut(s, t)
  {
    es := [];
    if !s.pcs[t].Exited? {
      var e := if s.pcs[t] == Top then TakeTask(t) else Idle(t);
      OneStepOut(s, t);
      var rest := QuietLeaves(Next(s, e), t);
      Prepend(s, e, rest);
      es := [e] + rest;
    }
  }

  // A worker whose idle fiber has ended leaves as soon as it finds no task for itself.
  lemma FindsNone(s: Pool, t: nat)
    requires t in s.pcs && s.pcs[t] == Top && t in s.idleTerm && FirstEligible(s.tasks, t) == |s.tasks|
    ensures LeavesBy(s, [TakeTask(t)] + ([Idle(t)] + []), t)
  {
    var s1 := Next(s, TakeTask(t));
    Prepend(s1, Idle(t), []);
    Prepend(s, TakeTask(t), [Idle(t)] + []);
  }

  lemma LeavesAfter(s: Pool, first: seq<Event>, rest: seq<Event>, t: nat)
    requires Legal(s, first) && (forall e | e in first :: WorkerStep(e)) && LeavesBy(Run(s, first), rest, t)
    ensures LeavesBy(s, first + rest, t)
  {
    Concat(s, first, rest);
  }

  lemma {:induction false} TermLeaves(s: Pool, t: nat) returns (es: seq<Event>)
    requires Inv(s) && t in s.pcs && t in s.idleTerm
    ensures LeavesBy(s, es, t)
    decreases |s.tasks|, if Busy(s.pcs[t]) then 1 else 0
  {
    if s.pcs[t].Exited? {
      es := [];
    } else if s.pcs[t].NoTask? {
      Prepend(s, Idle(t), []);
      es := [Idle(t)] + [];
    } else if Busy(s.pcs[t]) {
      var first := CanFinish(s, t);
      var rest := TermLeaves(Run(s, first), t);
      LeavesAfter(s, first, rest, t);
      es := first + rest;
    } else if FirstEligible(s.tasks, t) == |s.tasks| {
      FindsNone(s, t);
      es := [TakeTask(t)] + ([Idle(t)] + []);
    } else {
      StepKeepsInv(s, TakeTask(t));
      var rest := TermLeaves(Next(s, TakeTask(t)), t);
      Prepend(s, TakeTask(t), rest);
      es := [TakeTask(t)] + rest;
    }
  }

  lemma StoppedLeaves(s: Pool, t: nat) returns (es: seq<Event>)
    requires Inv(s) && t in s.pcs && s.stopping && forall x | x in s.tasks :: SomeoneLeftFor(s, x)
    ensures LeavesBy(s, es, t)
  {
    var empty := CanEmpty(s);
    var s1 := Run(s, empty);
    var quieten := CanQuieten(s1);
    var s2 := Run(s1, quieten);
    assert t in s2.pcs.Keys;
    var out := QuietLeaves(s2, t);
    LeavesAfter(s1, quieten, out, t);
    LeavesAfter(s, empty, quieten + out, t);
    es := empty + (quieten + out);
  }

  // ---- Who stays -----------------------------------------------------------------------------------------

  // The pool is not stopped, or a task is left that nobody will take.
  ghost predicate Unending(s: Pool) {
    !s.stopping || exists x :: x in s.tasks && Abandoned(s, x)
  }

  lemma UnendingStays(s: Pool, e: Event)
    requires Enabled(s, e) && WorkerStep(e) && Unending(s)
    ensures Unending(Next(s, e))
  {
    if s.stopping {
      var x :| x in s.tasks && Abandoned(s, x);
      AbandonedStays(s, e, x);
    }
  }

  lemma {:induction false} UnendingNeverLeaves(s: Pool, es: seq<Event>, t: nat)
    requires t in s.pcs && Unending(s) && !s.pcs[t].Exited? && t !in s.idleTerm
    ensures !LeavesBy(s, es, t)
    decreases |es|
  {
    if es != [] && Legal(s, es) && forall e | e in es :: WorkerStep(e) {
      UnendingStays(s, es[0]);
      UnendingNeverLeaves(Next(s, es[0]), es[1..], t);
    }
  }

  // In every reachable state: the workers' own steps can bring a worker out of run() if and only if it is
  // out already, its idle fiber has ended, or stop() was called and each queued task has a thread that may
  // run it and is not gone.
  lemma CanLeaveIff(s0: Pool, before: seq<Event>, t: nat)
    requires Init(s0) && Legal(s0, before) && t in Run(s0, before).pcs
    ensures var s := Run(s0, before);
            (exists es :: LeavesBy(s, es, t)) <==>
            || s.pcs[t].Exited? || t in s.idleTerm
            || (s.stopping && forall x | x in s.tasks :: SomeoneLeftFor(s, x))
  {
    InitHolds(s0);
    RunKeepsInv(s0, before);
    var s := Run(s0, before);
    if s.pcs[t].Exited? {
      assert LeavesBy(s, [], t);
    } else if t in s.idleTerm {
      var es := TermLeaves(s, t);
    } else if s.stopping && forall x | x in s.tasks :: SomeoneLeftFor(s, x) {
      var es := StoppedLeaves(s, t);
    } else {
      assert Unending(s) by {
        if s.stopping {
          var x :| x in s.tasks && !SomeoneLeftFor(s, x);
          assert Abandoned(s, x);
        }
      }
      forall es ensures !LeavesBy(s, es, t) {
        UnendingNeverLeaves(s, es, t);
      }
    }
  }

  // So when nothing is left to do every worker can leave.
  lemma QuietPoolCanBeJoined(s0: Pool, before: seq<Event>, t: nat)
    requires Init(s0) && Legal(s0, before) && Quiet(Run(s0, before)) && t in Run(s0, before).pcs
    ensures exists es :: LeavesBy(Run(s0, before), es, t)
  {
    CanLeaveIff(s0, before, t);
  }

  // If nobody pushes from outside after stop(), the only tasks in the way are those pinned to a thread
  // that there is not.
  lemma OrderlyStopIff(s0: Pool, before: seq<Event>, t: nat)
    requires Init(s0) && Legal(s0, before) && OrderlyRun(s0, before)
    requires Run(s0, before).stopping && t in Run(s0, before).pcs
    ensures var s := Run(s0, before);
            (exists es :: LeavesBy(s, es, t)) <==>
            forall x | x in s.tasks :: exists u :: u in s.pcs && Eligible(x, u)
  {
    CanLeaveIff(s0, before, t);
    InitHolds(s0);
    RunKeepsLeave(s0, before);
    var s := Run(s0, before);
    if s.tasks != [] {
      assert forall u :: !Gone(s, u);
      forall x | x in s.tasks ensures SomeoneLeftFor(s, x) <==> exists u :: u in s.pcs && Eligible(x, u) {
      }
    }
  }

  // ---- Every task can be finished ------------------------------------------------------------------------

  lemma {:induction false} RunKeepsAbandoned(s: Pool, es: seq<Event>, x: Task)
    requires Inv(s) && Legal(s, es) && Abandoned(s, x)
    ensures Inv(Run(s, es)) && Abandoned(Run(s, es), x)
    decreases |es|
  {
    if es != [] {
      StepKeepsInv(s, es[0]);
      AbandonedStays(s, es[0], x);
      RunKeepsAbandoned(Next(s, es[0]), es[1..], x);
    }
  }

  lemma QueuedIsNotDone(s: Pool, x: Task)
    requires Inv(s) && x in s.tasks
    ensures x.ticket !in s.done
  {
  }

  lemma CanTakeAndFinish(s: Pool, x: Task, t: nat) returns (es: seq<Event>)
    requires Inv(s) && x in s.tasks && t in s.pcs && Eligible(x, t) && !Gone(s, t)
    ensures FinishesBy(s, es, x)
  {
    var back := CanComeBack(s, t);
    var s1 := Run(s, back);
    var take := CanTake(s1, t, x);
    var s2 := Run(s1, take);
    RunKeepsInv(s1, take);
    var finish := CanFinish(s2, t);
    Concat(s1, take, finish);
    Concat(s, back, take + finish);
    es := back + (take + finish);
  }

  // In every reachable state, a queued task can be finished if and only if some thread that may run it is
  // not gone.
  lemma FinishedIff(s0: Pool, before: seq<Event>, x: Task)
    requires Init(s0) && Legal(s0, before) && x in Run(s0, before).tasks
    ensures var s := Run(s0, before);
            (exists es :: FinishesBy(s, es, x)) <==> SomeoneLeftFor(s, x)
  {
    InitHolds(s0);
    RunKeepsInv(s0, before);
    var s := Run(s0, before);
    if SomeoneLeftFor(s, x) {
      var t :| t in s.pcs && Eligible(x, t) && !Gone(s, t);
      var es := CanTakeAndFinish(s, x, t);
    } else {
      forall es ensures !FinishesBy(s, es, x) {
        if Legal(s, es) {
          RunKeepsAbandoned(s, es, x);
          QueuedIsNotDone(Run(s, es), x);
        }
      }
    }
  }
}

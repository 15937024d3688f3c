/** Who wakes a fiber that waits on a FiberSemaphore: when a notified fiber can still be resumed, and
    when one that nobody has notified can be. */
module SemaphoreWakeUps {
  import opened TaskQueue
  import opened Workers
  import opened FiberSemaphore

  // Steps of the pool as steps of the semaphore's machine.
  function Lifted(es: seq<Event>): seq<Step> {
    if es == [] then [] else [Other(es[0])] + Lifted(es[1..])
  }

  predicate Picks(m: Sem, t: Step, f: nat) {
    t.Notify? && m.waiters != [] && m.waiters[0] == f
  }

  // Nobody notifies f in this run.
  ghost predicate Unnotified(m: Sem, ts: seq<Step>, f: nat)
    requires Legal'(m, ts)
    decreases |ts|
  {
    ts == [] || (!Picks(m, ts[0], f) && Unnotified(Next'(m, ts[0]), ts[1..], f))
  }

  predicate AliveIn(s: Pool, f: nat) {
    f in s.fibers && s.fibers[f] != TERM
  }

  // A thread holds the fiber's mutex and is about to switch into it.
  predicate Enters(s: Pool, u: nat, f: nat) {
    u in s.pcs && s.pcs[u].Locked? && s.pcs[u].fiber == f && AliveIn(s, f)
  }

  // ---- What the pool can do without pushing anything ---------------------------------------------

  lemma {:induction false} PlainKeepsAlive(s: Pool, es: seq<Event>, f: nat)
    requires Legal(s, es) && (forall e | e in es :: Plain(e)) && AliveIn(s, f)
    ensures AliveIn(Run(s, es), f)
    decreases |es|
  {
    if es != [] {
      assert Plain(es[0]);
      PlainKeepsAlive(Next(s, es[0]), es[1..], f);
    }
  }

  lemma {:induction false} LiftedRuns(m: Sem, es: seq<Event>, f: nat)
    requires Legal(m.pool, es) && forall e | e in es :: Plain(e)
    ensures Legal'(m, Lifted(es)) && CalmRun(m, Lifted(es)) && Unnotified(m, Lifted(es), f)
    ensures Run'(m, Lifted(es)).pool == Run(m.pool, es) && Run'(m, Lifted(es)).waiters == m.waiters
    decreases |es|
  {
    if es != [] {
      assert Plain(es[0]);
      var m1 := Next'(m, Other(es[0]));
      LiftedRuns(m1, es[1..], f);
      assert Lifted(es)[1..] == Lifted(es[1..]);
    }
  }

  // A thread with a fiber's job in hand can go on to enter the fiber.
  lemma CanEnter(s: Pool, u: nat, f: nat) returns (es: seq<Event>)
    requires Inv(s) && Carries(s.pcs, u, f) && AliveIn(s, f)
    ensures Legal(s, es) && (forall e | e in es :: Plain(e)) && Enters(Run(s, es), u, f)
  {
    es := [];
    if s.pcs[u].InHand? {
      es := CanLock(s, u);
    }
    PlainKeepsAlive(s, es, f);
  }

  // So can one that may run the queued job, unless it is gone.
  lemma CanFetch(s: Pool, x: Task, u: nat, f: nat) returns (es: seq<Event>)
    requires Inv(s) && x in s.tasks && x.job == FiberJob(f) && AliveIn(s, f)
    requires u in s.pcs && Eligible(x, u) && !Gone(s, u)
    ensures Legal(s, es) && (forall e | e in es :: Plain(e)) && Enters(Run(s, es), u, f)
  {
    var back := CanComeBack(s, u);
    var s1 := Run(s, back);
    PlainKeepsAlive(s, back, f);
    var take := CanTake(s1, u, x);
    var s2 := Run(s1, take);
    PlainKeepsAlive(s1, take, f);
    RunKeepsInv(s1, take);
    var enter := CanEnter(s2, u, f);
    Concat(s1, take, enter);
    Concat(s, back, take + enter);
    es := back + (take + enter);
  }

  // ---- A notified fiber --------------------------------------------------------------------------

  ghost predicate AllGone(s: Pool) {
    forall u | u in s.pcs :: Gone(s, u)
  }

  lemma AllGoneStays(m: Sem, t: Step, f: nat)
    requires Enabled'(m, t) && AllGone(m.pool) && f in m.owed
    ensures AllGone(Next'(m, t).pool) && f in Next'(m, t).owed
  {
    if t.Other? && !t.e.Push? && !t.e.Make? && !t.e.Stop? {
      assert Gone(m.pool, t.e.t);
    }
  }

  lemma {:induction false} AllGoneOwesForEver(m: Sem, ts: seq<Step>, f: nat)
    requires Legal'(m, ts) && AllGone(m.pool) && f in m.owed
    ensures f in Run'(m, ts).owed
    decreases |ts|
  {
    if ts != [] {
      AllGoneStays(m, ts[0], f);
      AllGoneOwesForEver(Next'(m, ts[0]), ts[1..], f);
    }
  }

  lemma {:induction false} Snoc(m: Sem, ts: seq<Step>, t: Step)
    requires Legal'(m, ts) && Enabled'(Run'(m, ts), t)
    ensures Legal'(m, ts + [t]) && Run'(m, ts + [t]) == Next'(Run'(m, ts), t)
    ensures CalmRun(m, ts) && Calm(Run'(m, ts), t) ==> CalmRun(m, ts + [t])
    decreases |ts|
  {
    if ts == [] {
      assert (ts + [t])[1..] == [];
    } else {
      Snoc(Next'(m, ts[0]), ts[1..], t);
      assert (ts + [t])[1..] == ts[1..] + [t];
    }
  }

  // Some thread takes up an owed fiber's job and enters it.
  lemma OwedCanBeEntered(m: Sem, f: nat, u: nat) returns (es: seq<Event>, v: nat)
    requires SemInv(m) && f in m.owed && u in m.pool.pcs && !Gone(m.pool, u)
    ensures Legal(m.pool, es) && (forall e | e in es :: Plain(e)) && Enters(Run(m.pool, es), v, f)
  {
    if m.owed[f].Some? {
      v := m.owed[f].value;
      es := CanEnter(m.pool, v, f);
    } else {
      v := u;
      assert QueuedFor(m.pool.tasks, f);
      var i :| 0 <= i < |m.pool.tasks| && m.pool.tasks[i].job == FiberJob(f);
      es := CanFetch(m.pool, m.pool.tasks[i], u, f);
    }
  }

  // The thread's next step does switch into the fiber; one that was owed a resume is owed no more.
  lemma EnteringSettles(m: Sem, v: nat, f: nat)
    requires Enters(m.pool, v, f)
    ensures Enabled'(m, Other(Resume(v)))
    ensures var m' := Next'(m, Other(Resume(v)));
            InsideOf(m'.pool, v, f) && f !in m'.owed && m'.waiters == m.waiters && m'.handed == m.handed
  {
  }

  lemma CanSettle(m: Sem, f: nat, u: nat) returns (ts: seq<Step>)
    requires SemInv(m) && f in m.owed && u in m.pool.pcs && !Gone(m.pool, u)
    ensures Legal'(m, ts) && CalmRun(m, ts) && f !in Run'(m, ts).owed
  {
    var es, v := OwedCanBeEntered(m, f, u);
    LiftedRuns(m, es, f);
    EnteringSettles(Run'(m, Lifted(es)), v, f);
    Snoc(m, Lifted(es), Other(Resume(v)));
    ts := Lifted(es) + [Other(Resume(v))];
  }

  ghost predicate SettledBy(m: Sem, ts: seq<Step>, f: nat) {
    Legal'(m, ts) && CalmRun(m, ts) && f !in Run'(m, ts).owed
  }

  // After every calm run: a fiber that has been notified and not yet resumed can still be resumed if and
  // only if some worker thread is not gone.
  lemma NotifiedIsResumedIff(m0: Sem, before: seq<Step>, f: nat)
    requires Init'(m0) && Legal'(m0, before) && CalmRun(m0, before) && f in Run'(m0, before).owed
    ensures var m := Run'(m0, before);
            (exists ts :: SettledBy(m, ts, f)) <==> exists u :: u in m.pool.pcs && !Gone(m.pool, u)
  {
    InitSem(m0);
    RunKeepsSem(m0, before);
    var m := Run'(m0, before);
    if u :| u in m.pool.pcs && !Gone(m.pool, u) {
      var ts := CanSettle(m, f, u);
      assert SettledBy(m, ts, f);
    } else {
      forall ts ensures !SettledBy(m, ts, f) {
        if Legal'(m, ts) {
          AllGoneOwesForEver(m, ts, f);
        }
      }
    }
  }

  // ---- A fiber that nobody has notified ----------------------------------------------------------

  // A thread enters f, a waiter that nobody has notified.
  ghost predicate Stray(m: Sem, ts: seq<Step>, u: nat, f: nat) {
    Legal'(m, ts) && Unnotified(m, ts, f) && f in Run'(m, ts).waiters && Enters(Run'(m, ts).pool, u, f)
  }

  // No job of the waiter f will be run.
  ghost predicate Undisturbed(m: Sem, f: nat) {
    && f in m.waiters && f in m.pool.fibers && (forall u :: !Carries(m.pool.pcs, u, f))
    && forall x | x in m.pool.tasks && x.job == FiberJob(f) :: Abandoned(m.pool, x)
  }

  lemma JobsStayAbandoned(s: Pool, e: Event, f: nat)
    requires Enabled(s, e) && (e.Push? ==> e.job != FiberJob(f))
    requires forall x | x in s.tasks && x.job == FiberJob(f) :: Abandoned(s, x)
    ensures forall x | x in Next(s, e).tasks && x.job == FiberJob(f) :: Abandoned(Next(s, e), x)
  {
    forall x | x in Next(s, e).tasks && x.job == FiberJob(f) ensures Abandoned(Next(s, e), x) {
      assert x in s.tasks;
      AbandonedStays(s, e, x);
    }
  }

  lemma NobodyPicksUp(s: Pool, e: Event, f: nat)
    requires Enabled(s, e) && f in s.fibers && forall u :: !Carries(s.pcs, u, f)
    requires forall x | x in s.tasks && x.job == FiberJob(f) :: Abandoned(s, x)
    ensures f in Next(s, e).fibers && forall u :: !Carries(Next(s, e).pcs, u, f)
  {
    forall u: nat ensures !Carries(Next(s, e).pcs, u, f) {
      assert !Carries(s.pcs, u, f);
      if e == TakeTask(u) {
        var k := FirstEligible(s.tasks, u);
        if k < |s.tasks| && s.tasks[k].job == FiberJob(f) {
          assert s.tasks[k] in s.tasks && Abandoned(s, s.tasks[k]);
        }
      }
    }
  }

  lemma UndisturbedStays(m: Sem, t: Step, f: nat)
    requires Enabled'(m, t) && Undisturbed(m, f) && !Picks(m, t, f)
    ensures Undisturbed(Next'(m, t), f)
  {
    match t
    case TryWait(_) =>
    case Wait(_) =>
    case Notify(who) =>
      var e := Push(who, FiberJob(m.waiters[0]), ANY_THREAD);
      assert m.waiters == [m.waiters[0]] + m.waiters[1..];
      JobsStayAbandoned(m.pool, e, f);
      NobodyPicksUp(m.pool, e, f);
    case Other(e) =>
      JobsStayAbandoned(m.pool, e, f);
      NobodyPicksUp(m.pool, e, f);
  }

  lemma {:induction false} UndisturbedIsNotStray(m: Sem, ts: seq<Step>, u: nat, f: nat)
    requires Undisturbed(m, f)
    ensures !Stray(m, ts, u, f)
    decreases |ts|
  {
    if ts == [] {
      assert !Carries(m.pool.pcs, u, f);
    } else if Legal'(m, ts) && !Picks(m, ts[0], f) {
      UndisturbedStays(m, ts[0], f);
      UndisturbedIsNotStray(Next'(m, ts[0]), ts[1..], u, f);
    }
  }

  // Some thread has a job of the fiber in hand, or will be able to take one from the queue.
  ghost predicate HasLiveJob(s: Pool, f: nat) {
    (exists u :: Carries(s.pcs, u, f)) || exists x, u :: Reaches(s, x, u, f)
  }

  predicate Reaches(s: Pool, x: Task, u: nat, f: nat) {
    x in s.tasks && x.job == FiberJob(f) && u in s.pcs && Eligible(x, u) && !Gone(s, u)
  }

  lemma LiveJobEnters(m: Sem, f: nat) returns (ts: seq<Step>, u: nat)
    requires Inv(m.pool) && f in m.waiters && AliveIn(m.pool, f) && HasLiveJob(m.pool, f)
    ensures Stray(m, ts, u, f)
  {
    var es;
    if v :| Carries(m.pool.pcs, v, f) {
      u := v;
      es := CanEnter(m.pool, u, f);
    } else {
      var x, v :| Reaches(m.pool, x, v, f);
      u := v;
      es := CanFetch(m.pool, x, u, f);
    }
    LiftedRuns(m, es, f);
    ts := Lifted(es);
  }

  // A fiber that begins to wait is resumed without a notify in some continuation if and only if a job of
  // its own is at that moment in a thread's hand, or queued with a thread that may run it and is not gone.
  lemma StrayIff(m: Sem, t: nat)
    requires Inv(m.pool) && Enabled'(m, Wait(t)) && m.concurrency == 0
    ensures var f := Current(m.pool, t);
            (exists ts, u :: Stray(Next'(m, Wait(t)), ts, u, f)) <==> HasLiveJob(m.pool, f)
  {
    var f, m1 := Current(m.pool, t), Next'(m, Wait(t));
    InsideIsRunning(m.pool, t);
    if HasLiveJob(m.pool, f) {
      var ts, u := LiveJobEnters(m1, f);
    } else {
      forall x | x in m.pool.tasks && x.job == FiberJob(f) ensures Abandoned(m.pool, x) {
        forall u | u in m.pool.pcs && Eligible(x, u) ensures Gone(m.pool, u) {
          assert !Reaches(m.pool, x, u, f);
        }
      }
      forall ts, u ensures !Stray(m1, ts, u, f) {
        UndisturbedIsNotStray(m1, ts, u, f);
      }
    }
  }

  lemma {:induction false} RunKeepsPool(m: Sem, ts: seq<Step>)
    requires Inv(m.pool) && Legal'(m, ts)
    ensures Inv(Run'(m, ts).pool)
    decreases |ts|
  {
    if ts != [] {
      KeepsPool(m, ts[0]);
      RunKeepsPool(Next'(m, ts[0]), ts[1..]);
    }
  }

  lemma FibersStay(s: Pool, e: Event)
    requires FiberInv(s) && Enabled(s, e)
    ensures s.fibers.Keys <= Next(s, e).fibers.Keys
  {
  }

  ghost predicate WaitersExist(m: Sem) {
    forall f | f in m.waiters :: f in m.pool.fibers
  }

  lemma StepKeepsWaiters(m: Sem, t: Step)
    requires Inv(m.pool) && Enabled'(m, t) && WaitersExist(m)
    ensures WaitersExist(Next'(m, t))
  {
    match t
    case TryWait(_) =>
    case Wait(u) => InsideIsRunning(m.pool, u);
    case Notify(who) => if m.waiters != [] { FibersStay(m.pool, Push(who, FiberJob(m.waiters[0]), ANY_THREAD)); }
    case Other(e) => FibersStay(m.pool, e);
  }

  lemma {:induction false} RunKeepsWaiters(m: Sem, ts: seq<Step>)
    requires Inv(m.pool) && Legal'(m, ts) && WaitersExist(m)
    ensures WaitersExist(Run'(m, ts))
    decreases |ts|
  {
    if ts != [] {
      StepKeepsWaiters(m, ts[0]);
      KeepsPool(m, ts[0]);
      RunKeepsWaiters(Next'(m, ts[0]), ts[1..]);
    }
  }

  // The premise that waiters exist is no restriction: a notify from outside is always possible.
  lemma NotifyIsNeverRefused(m0: Sem, ts: seq<Step>)
    requires Init'(m0) && Legal'(m0, ts)
    ensures Enabled'(Run'(m0, ts), Notify(None))
  {
    InitHolds(m0.pool);
    RunKeepsWaiters(m0, ts);
  }

  // So in every run, whether the waits in it were calm or not.
  lemma WaiterIsDisturbedIff(m0: Sem, before: seq<Step>, t: nat)
    requires Init'(m0) && Legal'(m0, before)
    requires Enabled'(Run'(m0, before), Wait(t)) && Run'(m0, before).concurrency == 0
    ensures var m := Run'(m0, before);
            var f := Current(m.pool, t);
            (exists ts, u :: Stray(Next'(m, Wait(t)), ts, u, f)) <==> HasLiveJob(m.pool, f)
  {
    InitHolds(m0.pool);
    RunKeepsPool(m0, before);
    StrayIff(Run'(m0, before), t);
  }

  // It happens: a fiber that was pushed twice waits in its first run, and its second job resumes it.
  function PushTwice(t: nat, f: nat): seq<Event> {
    var push := Push(None, FiberJob(f), ANY_THREAD);
    [push] + ([push] + ([TakeTask(t)] + ([LockFiber(t, f)] + ([Resume(t)] + []))))
  }

  lemma PushedTwiceRuns(s: Pool, t: nat, f: nat)
    requires Init(s) && t in s.pcs && f in s.fibers
    ensures Legal(s, PushTwice(t, f))
    ensures var x0, x1 := Task(0, FiberJob(f), ANY_THREAD), Task(1, FiberJob(f), ANY_THREAD);
            && Run(s, PushTwice(t, f)).tasks == [x1]
            && Run(s, PushTwice(t, f)).pcs == s.pcs[t := Inside(x0, f)]
  {
    var push := Push(None, FiberJob(f), ANY_THREAD);
    var s1 := Next(s, push);
    var s2 := Next(s1, push);
    assert FirstEligible(s2.tasks, t) == 0;
    var s3 := Next(s2, TakeTask(t));
    var s4 := Next(s3, LockFiber(t, f));
    Prepend(s4, Resume(t), []);
    Prepend(s3, LockFiber(t, f), [Resume(t)] + []);
    Prepend(s2, TakeTask(t), [LockFiber(t, f)] + ([Resume(t)] + []));
    Prepend(s1, push, [TakeTask(t)] + ([LockFiber(t, f)] + ([Resume(t)] + [])));
    Prepend(s, push, [push] + ([TakeTask(t)] + ([LockFiber(t, f)] + ([Resume(t)] + []))));
  }

  predicate Nobody(m: Sem) {
    m.waiters == [] && m.owed == map[]
  }

  lemma {:induction false} LiftedEarly(m: Sem, es: seq<Event>)
    requires Nobody(m) && Legal(m.pool, es)
    requires forall e | e in es :: !e.Terminate? && (e.Push? ==> e.who.None?)
    ensures Legal'(m, Lifted(es)) && CalmRun(m, Lifted(es)) && Nobody(Run'(m, Lifted(es)))
    ensures var m' := Run'(m, Lifted(es)); m'.pool == Run(m.pool, es) && m'.concurrency == m.concurrency
    decreases |es|
  {
    if es != [] {
      assert !es[0].Terminate? && (es[0].Push? ==> es[0].who.None?);
      LiftedEarly(Next'(m, Other(es[0])), es[1..]);
      assert Lifted(es)[1..] == Lifted(es[1..]);
    }
  }

  lemma PushedTwiceIsStray(m0: Sem, t: nat, f: nat)
    requires Init'(m0) && m0.concurrency == 0 && t in m0.pool.pcs && f in m0.pool.fibers
    ensures var before := Lifted(PushTwice(t, f));
            && Legal'(m0, before) && CalmRun(m0, before)
            && var m := Run'(m0, before);
            && Enabled'(m, Wait(t)) && Current(m.pool, t) == f && m.concurrency == 0
            && exists ts, u :: Stray(Next'(m, Wait(t)), ts, u, f)
  {
    PushedTwiceRuns(m0.pool, t, f);
    LiftedEarly(m0, PushTwice(t, f));
    var m := Run'(m0, Lifted(PushTwice(t, f)));
    assert Reaches(m.pool, m.pool.tasks[0], t, f);
    WaiterIsDisturbedIff(m0, Lifted(PushTwice(t, f)), t);
  }
}

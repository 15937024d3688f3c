/** FiberSemaphore (corlib/mutex.cpp) run on the worker pool: wait() queues the calling fiber and,
    in a separate step, yields; notify() hands over to the first waiter by scheduling it. */
module FiberSemaphore {
  import opened TaskQueue
  import opened Workers

  datatype Sem = Sem(
    pool: Pool,
    concurrency: nat,            // m_concurrency
    waiters: seq<nat>,           // m_waiters, the fibers
    // History, read by the properties only.
    handed: seq<nat>,            // fibers in the order in which notify picked them
    woken: seq<nat>,             // handed fibers that have been resumed since, in that order
    owed: map<nat, Option<nat>>  // handed fibers that have not, and the thread that has the job (None: the queue)
  )

  type Owed = map<nat, Option<nat>>

  function Current(s: Pool, t: nat): nat
    requires At(s, t) && s.pcs[t].Inside?
  {
    s.pcs[t].fiber
  }

  datatype Step =
    | TryWait(t: nat)
    | Wait(t: nat)                       // the locked region of wait(); the yield is a step of its own
    | Notify(who: Option<nat>)           // by a running fiber or by a thread outside the pool
    | Other(e: Event)

  // The fiber that a thread is about to run.
  function Token(pc: Pc): Option<nat> {
    match pc
    case InHand(x) => if x.job.FiberJob? then Some(x.job.fiber) else None
    case Locked(_, f) => Some(f)
    case _ => None
  }

  ghost predicate QueuedFor(tasks: seq<Task>, f: nat) {
    exists i :: 0 <= i < |tasks| && tasks[i].job == FiberJob(f)
  }

  ghost predicate Carries(pcs: map<nat, Pc>, t: nat, f: nat) {
    t in pcs && Token(pcs[t]) == Some(f)
  }

  // Some job of the fiber is queued or in a thread's hand.
  ghost predicate HasJob(s: Pool, f: nat) {
    QueuedFor(s.tasks, f) || exists t :: Carries(s.pcs, t, f)
  }

  predicate IsWaiting(m: Sem, f: nat) {
    f in m.waiters || f in m.owed
  }

  function Decremented(m: Sem): Sem
    requires m.concurrency > 0
  {
    m.(concurrency := m.concurrency - 1)
  }

  function Waited(m: Sem, f: nat): Sem {
    if m.concurrency > 0 then Decremented(m)
    else m.(waiters := m.waiters + [f])
  }

  // The spinlock is held over scheduleLock, so a hand-over is one step.
  ghost function NotifiedBy(m: Sem, who: Option<nat>): Sem
    requires Enabled'(m, Notify(who))
  {
    if m.waiters == [] then m.(concurrency := m.concurrency + 1)
    else
      var f := m.waiters[0];
      m.(waiters := m.waiters[1..], handed := m.handed + [f], owed := m.owed[f := None],
         pool := Next(m.pool, Push(who, FiberJob(f), ANY_THREAD)))
  }

  // What a step of the pool does to the history.
  function Noted(m: Sem, e: Event): Sem
    requires Enabled(m.pool, e)
  {
    match e
    case TakeTask(t) =>
      var x := Pick(m.pool.tasks, t).0;
      if x.Some? && x.value.job.FiberJob? && x.value.job.fiber in m.owed then
        m.(owed := m.owed[x.value.job.fiber := Some(t)])
      else m
    case Resume(t) =>
      var f := m.pool.pcs[t].fiber;
      if f in m.owed && Next(m.pool, e).pcs[t].Inside? then m.(owed := m.owed - {f}, woken := m.woken + [f]) else m
    case _ => m
  }

  // Discipline: from when a fiber begins to wait until it is resumed it does nothing but yield, and
  // nobody else schedules it. Other fibers may be scheduled any number of times and while they run.
  // That waiters exist is always so in a run.
  ghost predicate Enabled'(m: Sem, t: Step) {
    match t
    case TryWait(t) => Awake(m, t)
    case Wait(t) => Awake(m, t)
    case Notify(who) => (who.Some? ==> Awake(m, who.value)) && forall f | f in m.waiters :: f in m.pool.fibers
    case Other(e) => Enabled(m.pool, e) && Disciplined(m, e)
  }

  predicate Awake(m: Sem, t: nat) {
    At(m.pool, t) && m.pool.pcs[t].Inside? && !IsWaiting(m, m.pool.pcs[t].fiber)
  }

  predicate Disciplined(m: Sem, e: Event) {
    match e
    case Push(who, job, _) => (who.Some? ==> Awake(m, who.value)) && (job.FiberJob? ==> !IsWaiting(m, job.fiber))
    case Terminate(t) => Awake(m, t)
    case _ => true
  }

  ghost function Next'(m: Sem, t: Step): Sem
    requires Enabled'(m, t)
  {
    match t
    case TryWait(_) => if m.concurrency > 0 then Decremented(m) else m
    case Wait(t) => Waited(m, Current(m.pool, t))
    case Notify(who) => NotifiedBy(m, who)
    case Other(e) => Noted(m, e).(pool := Next(m.pool, e))
  }

  ghost predicate Init'(m: Sem) {
    Workers.Init(m.pool) && m.waiters == [] && m.handed == [] && m.woken == [] && m.owed == map[]
  }

  ghost predicate Legal'(m: Sem, ts: seq<Step>)
    decreases |ts|
  {
    ts == [] || (Enabled'(m, ts[0]) && Legal'(Next'(m, ts[0]), ts[1..]))
  }

  ghost function Run'(m: Sem, ts: seq<Step>): Sem
    requires Legal'(m, ts)
    decreases |ts|
  {
    if ts == [] then m else Run'(Next'(m, ts[0]), ts[1..])
  }

  // A premise of its own: a fiber begins to wait only when no job of its own is outstanding.
  ghost predicate Calm(m: Sem, t: Step)
    requires Enabled'(m, t)
  {
    t.Wait? ==> !HasJob(m.pool, Current(m.pool, t.t))
  }

  ghost predicate CalmRun(m: Sem, ts: seq<Step>)
    requires Legal'(m, ts)
    decreases |ts|
  {
    ts == [] || (Calm(m, ts[0]) && CalmRun(Next'(m, ts[0]), ts[1..]))
  }

  // ---- The invariant ---------------------------------------------------------------------

  // No permit is kept while somebody waits.
  ghost predicate Permits(m: Sem) {
    m.concurrency > 0 ==> m.waiters == []
  }

  // Every hand-over has had its one resume, or is still owed it.
  ghost predicate WokenInv(handed: seq<nat>, woken: seq<nat>, owed: Owed) {
    multiset(handed) == multiset(woken) + multiset(owed.Keys)
  }

  // A fiber waits once, and neither it nor one that is owed a resume has terminated.
  ghost predicate PhaseInv(waiters: seq<nat>, owed: Owed, fibers: map<nat, FState>) {
    && (forall i, j | 0 <= i < j < |waiters| :: waiters[i] != waiters[j])
    && (forall f | f in waiters :: f !in owed && f in fibers && fibers[f] != TERM)
    && forall f | f in owed :: f in fibers && fibers[f] != TERM
  }

  // No thread is about to run a waiter, and exactly the recorded one a fiber that is owed.
  ghost predicate HandJobs(pcs: map<nat, Pc>, waiters: seq<nat>, owed: Owed) {
    && (forall t | t in pcs && Token(pcs[t]).Some? ::
          Token(pcs[t]).value !in waiters && (Token(pcs[t]).value in owed ==> owed[Token(pcs[t]).value] == Some(t)))
    && forall f | f in owed && owed[f].Some? :: owed[f].value in pcs && Token(pcs[owed[f].value]) == Some(f)
  }

  // No waiter is queued for, and a fiber that is owed its job by the queue is queued for once, on any
  // thread.
  ghost predicate QueueJobs(tasks: seq<Task>, waiters: seq<nat>, owed: Owed) {
    && (forall i | 0 <= i < |tasks| && tasks[i].job.FiberJob? ::
          tasks[i].job.fiber !in waiters &&
          (tasks[i].job.fiber in owed ==> owed[tasks[i].job.fiber].None? && tasks[i].thread == ANY_THREAD))
    && (forall i, j | 0 <= i < j < |tasks| && tasks[i].job.FiberJob? && tasks[i].job.fiber in owed ::
          tasks[i].job != tasks[j].job)
    && forall f | f in owed && owed[f].None? :: QueuedFor(tasks, f)
  }

  ghost predicate SemInv(m: Sem) {
    && Inv(m.pool) && Permits(m) && WokenInv(m.handed, m.woken, m.owed)
    && PhaseInv(m.waiters, m.owed, m.pool.fibers)
    && HandJobs(m.pool.pcs, m.waiters, m.owed) && QueueJobs(m.pool.tasks, m.waiters, m.owed)
  }

  // ---- Every step keeps it -----------------------------------------------------------------

  lemma KeepsPool(m: Sem, t: Step)
    requires Inv(m.pool) && Enabled'(m, t)
    ensures Inv(Next'(m, t).pool)
  {
    match t
    case Notify(who) => if m.waiters != [] { StepKeepsInv(m.pool, Push(who, FiberJob(m.waiters[0]), ANY_THREAD)); }
    case Other(e) => StepKeepsInv(m.pool, e);
    case _ =>
  }

  lemma KeepsPermits(m: Sem, t: Step)
    requires Permits(m) && Enabled'(m, t)
    ensures Permits(Next'(m, t))
  {
  }

  lemma WokenHanded(handed: seq<nat>, woken: seq<nat>, owed: Owed, f: nat)
    requires WokenInv(handed, woken, owed) && f !in owed
    ensures WokenInv(handed + [f], woken, owed[f := None])
  {
    assert owed[f := None].Keys == owed.Keys + {f};
  }

  lemma WokenResumed(handed: seq<nat>, woken: seq<nat>, owed: Owed, f: nat)
    requires WokenInv(handed, woken, owed) && f in owed
    ensures WokenInv(handed, woken + [f], owed - {f})
  {
    assert (owed - {f}).Keys == owed.Keys - {f};
    assert multiset(owed.Keys) == multiset(owed.Keys - {f}) + multiset{f};
  }

  lemma WokenMoved(handed: seq<nat>, woken: seq<nat>, owed: Owed, f: nat, j: Option<nat>)
    requires WokenInv(handed, woken, owed) && f in owed
    ensures WokenInv(handed, woken, owed[f := j])
  {
    assert owed[f := j].Keys == owed.Keys;
  }

  lemma KeepsWoken(m: Sem, t: Step)
    requires WokenInv(m.handed, m.woken, m.owed) && (forall f | f in m.waiters :: f !in m.owed) && Enabled'(m, t)
    ensures WokenInv(Next'(m, t).handed, Next'(m, t).woken, Next'(m, t).owed)
  {
    match t
    case TryWait(_) =>
    case Wait(_) =>
    case Notify(_) =>
      if m.waiters != [] {
        assert m.waiters[0] in m.waiters;
        WokenHanded(m.handed, m.woken, m.owed, m.waiters[0]);
      }
    case Other(e) => KeepsWokenOther(m, e);
  }

  lemma KeepsWokenOther(m: Sem, e: Event)
    requires WokenInv(m.handed, m.woken, m.owed) && Enabled(m.pool, e)
    ensures WokenInv(m.handed, Noted(m, e).woken, Noted(m, e).owed)
  {
    if e.Resume? && m.pool.pcs[e.t].fiber in m.owed {
      WokenResumed(m.handed, m.woken, m.owed, m.pool.pcs[e.t].fiber);
    } else if e.TakeTask? {
      var k := FirstEligible(m.pool.tasks, e.t);
      if k < |m.pool.tasks| && m.pool.tasks[k].job.FiberJob? && m.pool.tasks[k].job.fiber in m.owed {
        WokenMoved(m.handed, m.woken, m.owed, m.pool.tasks[k].job.fiber, Some(e.t));
      }
    }
  }

  lemma PhaseState(waiters: seq<nat>, owed: Owed, fibers: map<nat, FState>, f: nat, state: FState)
    requires PhaseInv(waiters, owed, fibers) && (state != TERM || (f !in waiters && f !in owed))
    ensures PhaseInv(waiters, owed, fibers[f := state])
  {
  }

  lemma PhaseOwed(waiters: seq<nat>, owed: Owed, fibers: map<nat, FState>, f: nat, j: Option<nat>)
    requires PhaseInv(waiters, owed, fibers) && f in owed
    ensures PhaseInv(waiters, owed[f := j], fibers) && PhaseInv(waiters, owed - {f}, fibers)
  {
  }

  lemma PhaseWaits(waiters: seq<nat>, owed: Owed, fibers: map<nat, FState>, f: nat)
    requires PhaseInv(waiters, owed, fibers) && f !in waiters && f !in owed && f in fibers && fibers[f] != TERM
    ensures PhaseInv(waiters + [f], owed, fibers)
  {
  }

  lemma PhaseHanded(waiters: seq<nat>, owed: Owed, fibers: map<nat, FState>)
    requires PhaseInv(waiters, owed, fibers) && waiters != []
    ensures PhaseInv(waiters[1..], owed[waiters[0] := None], fibers)
  {
    assert waiters == [waiters[0]] + waiters[1..];
  }

  lemma InsideIsRunning(s: Pool, t: nat)
    requires FiberInv(s) && t in s.pcs && s.pcs[t].Inside?
    ensures s.pcs[t].fiber in s.fibers && s.fibers[s.pcs[t].fiber] == RUNNING
  {
  }

  lemma KeepsPhase(m: Sem, t: Step)
    requires FiberInv(m.pool) && PhaseInv(m.waiters, m.owed, m.pool.fibers) && Enabled'(m, t)
    ensures PhaseInv(Next'(m, t).waiters, Next'(m, t).owed, Next'(m, t).pool.fibers)
  {
    match t
    case TryWait(_) =>
    case Wait(u) =>
      InsideIsRunning(m.pool, u);
      PhaseWaits(m.waiters, m.owed, m.pool.fibers, Current(m.pool, u));
    case Notify(_) => if m.waiters != [] { PhaseHanded(m.waiters, m.owed, m.pool.fibers); }
    case Other(e) => KeepsPhaseOther(m, e);
  }

  lemma KeepsPhaseOther(m: Sem, e: Event)
    requires PhaseInv(m.waiters, m.owed, m.pool.fibers) && Enabled'(m, Other(e))
    ensures PhaseInv(m.waiters, Noted(m, e).owed, Next(m.pool, e).fibers)
  {
    var w, owed, fibers := m.waiters, m.owed, m.pool.fibers;
    match e
    case Make(f) => PhaseState(w, owed, fibers, f, READY);
    case TakeTask(t) =>
      var k := FirstEligible(m.pool.tasks, t);
      if k < |m.pool.tasks| && m.pool.tasks[k].job.FiberJob? && m.pool.tasks[k].job.fiber in owed {
        PhaseOwed(w, owed, fibers, m.pool.tasks[k].job.fiber, Some(t));
      }
    case LockFiber(t, made) => if m.pool.pcs[t].task.job.CbJob? { PhaseState(w, owed, fibers, made, READY); }
    case Resume(t) =>
      var f := m.pool.pcs[t].fiber;
      if f in owed {
        PhaseOwed(w, owed, fibers, f, None);
      }
      PhaseState(w, owed, fibers, f, RUNNING);
      PhaseState(w, Noted(m, e).owed, fibers, f, RUNNING);
    case Yield(t) => PhaseState(w, owed, fibers, m.pool.pcs[t].fiber, READY);
    case Terminate(t) => PhaseState(w, owed, fibers, m.pool.pcs[t].fiber, TERM);
    case _ =>
  }

  // A thread's step changes nothing about the fiber it is about to run.
  lemma HandSameToken(pcs: map<nat, Pc>, w: seq<nat>, owed: Owed, t: nat, pc: Pc)
    requires HandJobs(pcs, w, owed) && t in pcs && Token(pc) == Token(pcs[t])
    ensures HandJobs(pcs[t := pc], w, owed)
  {
  }

  // It takes a job, or drops one.
  lemma HandNewToken(pcs: map<nat, Pc>, w: seq<nat>, owed: Owed, t: nat, pc: Pc)
    requires HandJobs(pcs, w, owed) && t in pcs && Token(pcs[t]) == None && Token(pc).Some? && Token(pc).value !in w
    requires Token(pc).value in owed ==> owed[Token(pc).value].None?
    ensures HandJobs(pcs[t := pc], w, if Token(pc).value in owed then owed[Token(pc).value := Some(t)] else owed)
  {
  }

  lemma HandDropToken(pcs: map<nat, Pc>, w: seq<nat>, owed: Owed, t: nat, pc: Pc)
    requires HandJobs(pcs, w, owed) && t in pcs && Token(pcs[t]).Some? && Token(pc) == None
    ensures HandJobs(pcs[t := pc], w, owed - {Token(pcs[t]).value})
  {
  }

  lemma HandWaits(pcs: map<nat, Pc>, w: seq<nat>, owed: Owed, f: nat)
    requires HandJobs(pcs, w, owed) && forall t :: !Carries(pcs, t, f)
    ensures HandJobs(pcs, w + [f], owed)
  {
    forall t | t in pcs && Token(pcs[t]).Some? ensures Token(pcs[t]).value != f {
      assert !Carries(pcs, t, f);
    }
  }

  lemma HandHanded(pcs: map<nat, Pc>, w: seq<nat>, owed: Owed)
    requires HandJobs(pcs, w, owed) && w != []
    ensures HandJobs(pcs, w[1..], owed[w[0] := None])
  {
    assert w == [w[0]] + w[1..];
  }

  lemma KeepsHand(m: Sem, t: Step)
    requires SemInv(m) && Enabled'(m, t) && Calm(m, t)
    ensures HandJobs(Next'(m, t).pool.pcs, Next'(m, t).waiters, Next'(m, t).owed)
  {
    match t
    case TryWait(_) =>
    case Wait(u) => HandWaits(m.pool.pcs, m.waiters, m.owed, Current(m.pool, u));
    case Notify(_) => if m.waiters != [] { HandHanded(m.pool.pcs, m.waiters, m.owed); }
    case Other(e) => KeepsHandOther(m, e);
  }

  // The steps of a thread that has its fiber's job behind it.
  predicate Later(e: Event) {
    e.Yield? || e.Terminate? || e.Unlock? || e.Finish? || e.Idle?
  }

  lemma KeepsHandLater(m: Sem, e: Event)
    requires HandJobs(m.pool.pcs, m.waiters, m.owed) && Enabled'(m, Other(e)) && Later(e)
    ensures HandJobs(Next(m.pool, e).pcs, m.waiters, Noted(m, e).owed)
  {
    HandSameToken(m.pool.pcs, m.waiters, m.owed, e.t, Next(m.pool, e).pcs[e.t]);
  }

  lemma KeepsHandOther(m: Sem, e: Event)
    requires HandJobs(m.pool.pcs, m.waiters, m.owed) && QueueJobs(m.pool.tasks, m.waiters, m.owed)
    requires PhaseInv(m.waiters, m.owed, m.pool.fibers) && Enabled'(m, Other(e))
    ensures HandJobs(Next(m.pool, e).pcs, m.waiters, Noted(m, e).owed)
  {
    var pcs, w, owed := m.pool.pcs, m.waiters, m.owed;
    match e
    case Push(_, _, _) =>
    case Make(_) =>
    case Stop =>
    case TakeTask(t) =>
      var k := FirstEligible(m.pool.tasks, t);
      if k < |m.pool.tasks| && m.pool.tasks[k].job.FiberJob? {
        HandNewToken(pcs, w, owed, t, InHand(m.pool.tasks[k]));
      } else {
        HandSameToken(pcs, w, owed, t, Next(m.pool, e).pcs[t]);
      }
    case LockFiber(t, made) =>
      var x := pcs[t].task;
      if x.job.CbJob? {
        HandNewToken(pcs, w, owed, t, Locked(x, made));
      } else {
        HandSameToken(pcs, w, owed, t, Locked(x, x.job.fiber));
      }
    case Resume(t) => KeepsHandResume(m, t);
    case _ => KeepsHandLater(m, e);
  }

  lemma KeepsHandResume(m: Sem, t: nat)
    requires HandJobs(m.pool.pcs, m.waiters, m.owed) && PhaseInv(m.waiters, m.owed, m.pool.fibers)
    requires Enabled'(m, Other(Resume(t)))
    ensures HandJobs(Next(m.pool, Resume(t)).pcs, m.waiters, Noted(m, Resume(t)).owed)
  {
    var f := m.pool.pcs[t].fiber;
    HandDropToken(m.pool.pcs, m.waiters, m.owed, t, Next(m.pool, Resume(t)).pcs[t]);
    assert f !in m.owed ==> m.owed - {f} == m.owed;
  }

  lemma QueuePushed(tasks: seq<Task>, w: seq<nat>, owed: Owed, x: Task)
    requires QueueJobs(tasks, w, owed) && (x.job.FiberJob? ==> x.job.fiber !in w && x.job.fiber !in owed)
    ensures QueueJobs(tasks + [x], w, owed)
  {
    forall f | f in owed && owed[f].None? ensures QueuedFor(tasks + [x], f) {
      var i :| 0 <= i < |tasks| && tasks[i].job == FiberJob(f);
      assert (tasks + [x])[i].job == FiberJob(f);
    }
  }

  lemma QueueHanded(tasks: seq<Task>, w: seq<nat>, owed: Owed, x: Task)
    requires QueueJobs(tasks, w, owed) && w != [] && x.job == FiberJob(w[0]) && w[0] !in w[1..]
    requires x.thread == ANY_THREAD
    ensures QueueJobs(tasks + [x], w[1..], owed[w[0] := None])
  {
    assert w == [w[0]] + w[1..];
    forall f | f in owed[w[0] := None] && owed[w[0] := None][f].None? ensures QueuedFor(tasks + [x], f) {
      if f == w[0] {
        assert (tasks + [x])[|tasks|].job == FiberJob(f);
      } else {
        var i :| 0 <= i < |tasks| && tasks[i].job == FiberJob(f);
        assert (tasks + [x])[i].job == FiberJob(f);
      }
    }
  }

  lemma QueueTaken(tasks: seq<Task>, w: seq<nat>, owed: Owed, n: nat, t: nat)
    requires QueueJobs(tasks, w, owed) && n < |tasks|
    ensures QueueJobs(tasks[..n] + tasks[n + 1..], w,
                      if tasks[n].job.FiberJob? && tasks[n].job.fiber in owed then owed[tasks[n].job.fiber := Some(t)]
                      else owed)
  {
    var rest := tasks[..n] + tasks[n + 1..];
    var x := tasks[n];
    var owed' := if x.job.FiberJob? && x.job.fiber in owed then owed[x.job.fiber := Some(t)] else owed;
    forall i | 0 <= i < |rest| && rest[i].job.FiberJob?
      ensures rest[i].job.fiber !in w
      ensures rest[i].job.fiber in owed' ==> owed'[rest[i].job.fiber].None? && rest[i].thread == ANY_THREAD
    {
      var j := if i < n then i else i + 1;
      assert rest[i] == tasks[j];
    }
    forall f | f in owed' && owed'[f].None? ensures QueuedFor(rest, f) {
      var i :| 0 <= i < |tasks| && tasks[i].job == FiberJob(f);
      assert rest[if i < n then i else i - 1].job == FiberJob(f);
    }
  }

  lemma QueueElsewhere(tasks: seq<Task>, w: seq<nat>, owed: Owed, f: nat)
    requires QueueJobs(tasks, w, owed) && (f in owed ==> owed[f].Some?)
    ensures QueueJobs(tasks, w, owed - {f})
  {
    assert forall g | g in owed && owed[g].None? :: QueuedFor(tasks, g);
  }

  lemma QueueWaits(tasks: seq<Task>, w: seq<nat>, owed: Owed, f: nat)
    requires QueueJobs(tasks, w, owed) && !QueuedFor(tasks, f)
    ensures QueueJobs(tasks, w + [f], owed)
  {
    assert forall g | g in owed && owed[g].None? :: QueuedFor(tasks, g);
    forall i | 0 <= i < |tasks| && tasks[i].job.FiberJob? ensures tasks[i].job.fiber != f {
      assert tasks[i].job == FiberJob(tasks[i].job.fiber);
    }
  }

  lemma KeepsQueue(m: Sem, t: Step)
    requires SemInv(m) && Enabled'(m, t) && Calm(m, t)
    ensures QueueJobs(Next'(m, t).pool.tasks, Next'(m, t).waiters, Next'(m, t).owed)
  {
    match t
    case TryWait(_) =>
    case Wait(u) => QueueWaits(m.pool.tasks, m.waiters, m.owed, Current(m.pool, u));
    case Notify(_) =>
      if m.waiters != [] {
        QueueHanded(m.pool.tasks, m.waiters, m.owed, Task(|m.pool.places|, FiberJob(m.waiters[0]), ANY_THREAD));
      }
    case Other(e) => KeepsQueueOther(m, e);
  }

  lemma KeepsQueueOther(m: Sem, e: Event)
    requires HandJobs(m.pool.pcs, m.waiters, m.owed) && QueueJobs(m.pool.tasks, m.waiters, m.owed)
    requires Enabled'(m, Other(e))
    ensures QueueJobs(Next(m.pool, e).tasks, m.waiters, Noted(m, e).owed)
  {
    var tasks, w, owed := m.pool.tasks, m.waiters, m.owed;
    match e
    case Push(_, job, thread) => QueuePushed(tasks, w, owed, Task(|m.pool.places|, job, thread));
    case TakeTask(t) =>
      var k := FirstEligible(tasks, t);
      if k < |tasks| {
        QueueTaken(tasks, w, owed, k, t);
      }
    case Resume(t) =>
      assert Token(m.pool.pcs[t]).Some?;
      QueueElsewhere(tasks, w, owed, m.pool.pcs[t].fiber);
    case _ =>
  }

  lemma StepKeepsSem(m: Sem, t: Step)
    requires SemInv(m) && Enabled'(m, t) && Calm(m, t)
    ensures SemInv(Next'(m, t))
  {
    KeepsPool(m, t);
    KeepsPermits(m, t);
    KeepsWoken(m, t);
    KeepsPhase(m, t);
    KeepsHand(m, t);
    KeepsQueue(m, t);
  }

  lemma {:induction false} RunKeepsSem(m: Sem, ts: seq<Step>)
    requires SemInv(m) && Legal'(m, ts) && CalmRun(m, ts)
    ensures SemInv(Run'(m, ts))
    decreases |ts|
  {
    if ts != [] {
      StepKeepsSem(m, ts[0]);
      RunKeepsSem(Next'(m, ts[0]), ts[1..]);
    }
  }

  lemma InitSem(m: Sem)
    requires Init'(m)
    ensures SemInv(m)
  {
    InitHolds(m.pool);
  }

  // ---- The theorems ----------------------------------------------------------------------

  // What a trace tells by itself: the steps in which somebody passes, a tryWait that is answered true, a
  // wait that does not sleep, or a notify that finds a waiter; and the notifies.
  predicate Passes(m: Sem, t: Step) {
    if t.Notify? then m.waiters != [] else (t.TryWait? || t.Wait?) && m.concurrency > 0
  }

  ghost function PassCount(m: Sem, ts: seq<Step>): nat
    requires Legal'(m, ts)
    decreases |ts|
  {
    if ts == [] then 0 else (if Passes(m, ts[0]) then 1 else 0) + PassCount(Next'(m, ts[0]), ts[1..])
  }

  function NotifyCount(ts: seq<Step>): nat {
    if ts == [] then 0 else (if ts[0].Notify? then 1 else 0) + NotifyCount(ts[1..])
  }

  // The fibers that went to sleep, and those that notify picked, in order.
  ghost function Slept(m: Sem, ts: seq<Step>): seq<nat>
    requires Legal'(m, ts)
    decreases |ts|
  {
    if ts == [] then []
    else
      (if ts[0].Wait? && !Passes(m, ts[0]) then [Current(m.pool, ts[0].t)] else []) + Slept(Next'(m, ts[0]), ts[1..])
  }

  ghost function Picked(m: Sem, ts: seq<Step>): seq<nat>
    requires Legal'(m, ts)
    decreases |ts|
  {
    if ts == [] then []
    else
      (if ts[0].Notify? && Passes(m, ts[0]) then [m.waiters[0]] else []) + Picked(Next'(m, ts[0]), ts[1..])
  }

  // In every run, calm or not: a permit is never kept back from a waiter; those who passed and the count
  // are together the first count and the notifies; and the fibers that slept are picked in that order.
  lemma PermitsAreConserved(m0: Sem, ts: seq<Step>)
    requires Init'(m0) && Legal'(m0, ts)
    ensures var m := Run'(m0, ts);
            && (m.concurrency > 0 ==> m.waiters == [])
            && PassCount(m0, ts) + m.concurrency == m0.concurrency + NotifyCount(ts)
            && Slept(m0, ts) == Picked(m0, ts) + m.waiters
            && m.handed == Picked(m0, ts)
  {
    RunConserves(m0, ts);
  }

  lemma {:induction false} RunConserves(m: Sem, ts: seq<Step>)
    requires Permits(m) && Legal'(m, ts)
    ensures var m' := Run'(m, ts);
            && Permits(m')
            && PassCount(m, ts) + m'.concurrency == m.concurrency + NotifyCount(ts)
            && m.waiters + Slept(m, ts) == Picked(m, ts) + m'.waiters
            && m'.handed == m.handed + Picked(m, ts)
    decreases |ts|
  {
    if ts != [] {
      var m1 := Next'(m, ts[0]);
      KeepsPermits(m, ts[0]);
      RunConserves(m1, ts[1..]);
      StepConserves(m, ts[0], Slept(m1, ts[1..]), Picked(m1, ts[1..]), Run'(m, ts).waiters);
    }
  }

  lemma HandsOver(f: nat, rest: seq<nat>, slept: seq<nat>, picked: seq<nat>, waiters': seq<nat>, handed: seq<nat>)
    requires rest + slept == picked + waiters'
    ensures ([f] + rest) + slept == ([f] + picked) + waiters'
    ensures (handed + [f]) + picked == handed + ([f] + picked)
  {
    assert ([f] + rest) + slept == [f] + (rest + slept);
    assert ([f] + picked) + waiters' == [f] + (picked + waiters');
  }

  // One step and the rest of the run.
  lemma StepConserves(m: Sem, t: Step, slept: seq<nat>, picked: seq<nat>, waiters': seq<nat>)
    requires Permits(m) && Enabled'(m, t) && Next'(m, t).waiters + slept == picked + waiters'
    ensures var sleeps := if t.Wait? && !Passes(m, t) then [Current(m.pool, t.t)] else [];
            var picks := if t.Notify? && Passes(m, t) then [m.waiters[0]] else [];
            && m.waiters + (sleeps + slept) == (picks + picked) + waiters'
            && Next'(m, t).handed + picked == m.handed + (picks + picked)
            && Next'(m, t).concurrency + (if Passes(m, t) then 1 else 0) ==
               m.concurrency + if t.Notify? then 1 else 0
  {
    var none: seq<nat> := [];
    assert none + slept == slept && none + picked == picked;
    match t
    case Notify(_) =>
      if m.waiters != [] {
        HandsOver(m.waiters[0], m.waiters[1..], slept, picked, waiters', m.handed);
        assert m.waiters == [m.waiters[0]] + m.waiters[1..];
      }
    case Wait(u) =>
      assert m.waiters + ([Current(m.pool, u)] + slept) == (m.waiters + [Current(m.pool, u)]) + slept;
    case _ =>
  }

  // In every calm run, whether a fiber was notified before or after it yielded: each hand-over has been
  // answered by one resume, or the fiber's job is still in the queue, once, or in exactly one thread's
  // hand. A fiber that was not notified has no job, so no thread is about to resume it.
  lemma NoWakeUpIsLost(m0: Sem, ts: seq<Step>)
    requires Init'(m0) && Legal'(m0, ts) && CalmRun(m0, ts)
    ensures var m := Run'(m0, ts);
            && multiset(m.handed) == multiset(m.woken) + multiset(m.owed.Keys)
            && (forall f | f in m.owed :: QueuedFor(m.pool.tasks, f) != exists t :: Carries(m.pool.pcs, t, f))
            && (forall f, t, u | f in m.owed && Carries(m.pool.pcs, t, f) && Carries(m.pool.pcs, u, f) :: t == u)
            && (forall f, i, j | f in m.owed && 0 <= i < j < |m.pool.tasks| ::
                  !(m.pool.tasks[i].job == FiberJob(f) == m.pool.tasks[j].job))
            && forall f | f in m.waiters :: !HasJob(m.pool, f)
  {
    InitSem(m0);
    RunKeepsSem(m0, ts);
    var m := Run'(m0, ts);
    forall f | f in m.owed ensures QueuedFor(m.pool.tasks, f) != exists t :: Carries(m.pool.pcs, t, f) {
      if m.owed[f].Some? {
        assert Carries(m.pool.pcs, m.owed[f].value, f);
      }
    }
  }

  // The race of notify with yield: the notified fiber's job may be taken by another thread while
  // the fiber has not yielded yet, but that thread cannot lock the fiber's mutex until it has.
  lemma NotifiedBeforeYieldMustWait(m: Sem, t: nat, u: nat, made: nat)
    requires SemInv(m) && t in m.pool.pcs && u in m.pool.pcs && m.pool.pcs[t].Inside?
    requires m.pool.pcs[u].InHand? && m.pool.pcs[u].task.job == FiberJob(m.pool.pcs[t].fiber)
    ensures !Enabled(m.pool, LockFiber(u, made))
    ensures m.pool.pcs[t].fiber !in m.waiters
  {
    assert Token(m.pool.pcs[u]) == Some(m.pool.pcs[t].fiber);
  }

  // Resuming a notified fiber does switch into it: the wake-up is not spent on a terminated fiber.
  lemma NotifiedFiberRuns(m: Sem, t: nat)
    requires SemInv(m) && t in m.pool.pcs && m.pool.pcs[t].Locked? && m.pool.pcs[t].fiber in m.owed
    ensures var f, m' := m.pool.pcs[t].fiber, Next'(m, Other(Resume(t)));
            m'.pool.pcs[t].Inside? && m'.woken == m.woken + [f] && !IsWaiting(m', f)
  {
    assert Token(m.pool.pcs[t]) == Some(m.pool.pcs[t].fiber);
  }

  // ---- The code --------------------------------------------------------------------------

  class FiberSemaphore {
    var concurrency: nat
    var waiters: seq<nat>
    const scheduler: Scheduler

    constructor (initial: nat, scheduler: Scheduler)
      ensures concurrency == initial && waiters == [] && this.scheduler == scheduler
    {
      this.concurrency, this.waiters, this.scheduler := initial, [], scheduler;
    }

    // The object is in the state m of the machine.
    ghost predicate Shows(m: Sem)
      reads this, scheduler
    {
      && concurrency == m.concurrency && waiters == m.waiters
      && scheduler.tasks == m.pool.tasks && scheduler.next == |m.pool.places|
    }

    method TryWait(ghost m: Sem, ghost t: nat) returns (ok: bool)
      requires Shows(m) && Enabled'(m, Step.TryWait(t))
      modifies this
      ensures Shows(Next'(m, Step.TryWait(t))) && (ok <==> old(concurrency) > 0)
      ensures concurrency == old(concurrency) - (if ok then 1 else 0) && waiters == old(waiters)
    {
      ok := concurrency > 0;
      if ok {
        concurrency := concurrency - 1;
      }
    }

    // The locked region of wait(); the result says whether the yield follows.
    method Wait(self: nat, ghost m: Sem, ghost t: nat) returns (sleeps: bool)
      requires Shows(m) && Enabled'(m, Step.Wait(t)) && self == Current(m.pool, t)
      modifies this
      ensures Shows(Next'(m, Step.Wait(t))) && (sleeps <==> old(concurrency) == 0)
      ensures concurrency == old(concurrency) - (if sleeps then 0 else 1)
      ensures waiters == old(waiters) + if sleeps then [self] else []
    {
      sleeps := concurrency == 0;
      if sleeps {
        waiters := waiters + [self];
      } else {
        concurrency := concurrency - 1;
      }
    }

    method Notify(ghost m: Sem, ghost who: Option<nat>)
      requires Shows(m) && Enabled'(m, Step.Notify(who))
      modifies this, scheduler
      ensures Shows(Next'(m, Step.Notify(who)))
      ensures if old(waiters) == [] then concurrency == old(concurrency) + 1 && unchanged(scheduler)
              else
                && concurrency == old(concurrency) && waiters == old(waiters)[1..]
                && scheduler.tasks == old(scheduler.tasks)
                   + [Task(old(scheduler.next), FiberJob(old(waiters)[0]), ANY_THREAD)]
    {
      if waiters != [] {
        var next := waiters[0];
        waiters := waiters[1..];
        var _ := scheduler.ScheduleLock(Some(FiberJob(next)), ANY_THREAD);
      } else {
        concurrency := concurrency + 1;
      }
    }
  }
}

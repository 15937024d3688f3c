/** The worker threads of corlib/scheduler.cpp as interleaved actors: every locked region and every
    switch into or out of a fiber is one step, for any number of threads, fibers and tasks. */
module Workers {
  import opened Sequences
  import opened TaskQueue

  // corlib/fiber.h; a fiber's state changes only where fiber.cpp says.
  datatype FState = READY | RUNNING | TERM

  // Where a worker is in the loop of run().
  datatype Pc =
    | Top                              // about to lock the queue
    | InHand(task: Task)               // task taken, its fiber's m_mutex not yet locked
    | Locked(task: Task, fiber: nat)   // m_mutex held, state not yet looked at
    | Inside(task: Task, fiber: nat)   // switched into the fiber
    | Back(task: Task, fiber: nat)     // out of the fiber, m_mutex still held
    | Released(task: Task)             // m_mutex released, m_activeThreadCount not yet lowered
    | NoTask                           // about to resume the idle fiber
    | Exited

  predicate Busy(pc: Pc) {
    pc.InHand? || pc.Locked? || pc.Inside? || pc.Back? || pc.Released?
  }

  predicate Holds(pc: Pc) {
    pc.Locked? || pc.Inside? || pc.Back?
  }

  // History of a pushed task.
  datatype Place = Queued | HeldBy(thread: nat) | Finished

  datatype Pool = Pool(
    tasks: seq<Task>,
    active: nat,               // m_activeThreadCount
    stopping: bool,            // m_stopping
    fibers: map<nat, FState>,
    holders: map<nat, nat>,    // locked m_mutexes, with the thread that holds each
    pcs: map<nat, Pc>,
    idleTerm: set<nat>,        // threads whose idle fiber is TERM
    places: seq<Place>,        // by ticket
    done: seq<nat>             // finished tickets, in order
  )

  datatype Event =
    | Push(who: Option<nat>, job: Job, thread: int)   // scheduleLock, by a task running on that thread or from outside
    | Make(fiber: nat)                               // a new fiber
    | TakeTask(t: nat)
    | LockFiber(t: nat, made: nat)                  // made: the fiber made for a callback
    | Resume(t: nat)
    | Yield(t: nat)
    | Terminate(t: nat)                              // MainFunc returns
    | Unlock(t: nat)
    | Finish(t: nat)
    | Idle(t: nat)
    | Stop

  // stopping(), which the code evaluates under the queue's lock.
  predicate Quiet(s: Pool) {
    s.stopping && s.tasks == [] && s.active == 0
  }

  predicate At(s: Pool, t: nat) {
    t in s.pcs
  }

  predicate Enabled(s: Pool, e: Event) {
    match e
    case Push(who, job, _) =>
      && (who.Some? ==> At(s, who.value) && s.pcs[who.value].Inside?)
      && (job.FiberJob? ==> job.fiber in s.fibers)
    case Make(f) => f !in s.fibers
    case TakeTask(t) => At(s, t) && s.pcs[t].Top?
    case LockFiber(t, made) =>
      At(s, t) && s.pcs[t].InHand? &&
      (if s.pcs[t].task.job.FiberJob? then s.pcs[t].task.job.fiber !in s.holders else made !in s.fibers)
    case Resume(t) => At(s, t) && s.pcs[t].Locked?
    case Yield(t) => At(s, t) && s.pcs[t].Inside?
    case Terminate(t) => At(s, t) && s.pcs[t].Inside?
    case Unlock(t) => At(s, t) && s.pcs[t].Back?
    case Finish(t) => At(s, t) && s.pcs[t].Released?
    case Idle(t) => At(s, t) && s.pcs[t].NoTask?
    case Stop => true
  }

  function Pushed(s: Pool, job: Job, thread: int): Pool {
    s.(tasks := s.tasks + [Task(|s.places|, job, thread)], places := s.places + [Queued])
  }

  function Took(s: Pool, t: nat): Pool {
    var (x, rest) := Pick(s.tasks, t);
    if x.None? then s.(pcs := s.pcs[t := NoTask])
    else s.(tasks := rest, active := s.active + 1, pcs := s.pcs[t := InHand(x.value)],
            places := if x.value.ticket < |s.places| then s.places[x.value.ticket := HeldBy(t)] else s.places)
  }

  function LockedFiber(s: Pool, t: nat, made: nat): Pool
    requires Enabled(s, LockFiber(t, made))
  {
    var x := s.pcs[t].task;
    if x.job.FiberJob? then
      s.(holders := s.holders[x.job.fiber := t], pcs := s.pcs[t := Locked(x, x.job.fiber)])
    else
      s.(fibers := s.fibers[made := READY], holders := s.holders[made := t], pcs := s.pcs[t := Locked(x, made)])
  }

  // A terminated fiber is skipped. resume() asserts that the state is READY and makes it RUNNING.
  function Resumed(s: Pool, t: nat): Pool
    requires Enabled(s, Resume(t))
  {
    var Locked(x, f) := s.pcs[t];
    if f in s.fibers && s.fibers[f] == TERM then s.(pcs := s.pcs[t := Back(x, f)])
    else s.(fibers := s.fibers[f := RUNNING], pcs := s.pcs[t := Inside(x, f)])
  }

  function Left(s: Pool, t: nat, state: FState): Pool
    requires Enabled(s, Yield(t))
  {
    var Inside(x, f) := s.pcs[t];
    s.(fibers := s.fibers[f := state], pcs := s.pcs[t := Back(x, f)])
  }

  function Unlocked(s: Pool, t: nat): Pool
    requires Enabled(s, Unlock(t))
  {
    var Back(x, f) := s.pcs[t];
    s.(holders := s.holders - {f}, pcs := s.pcs[t := Released(x)])
  }

  function Ended(s: Pool, t: nat): Pool
    requires Enabled(s, Finish(t))
  {
    var k := s.pcs[t].task.ticket;
    s.(active := if s.active > 0 then s.active - 1 else 0, pcs := s.pcs[t := Top], done := s.done + [k],
       places := if k < |s.places| then s.places[k := Finished] else s.places)
  }

  // A worker without a task leaves when its idle fiber is TERM, and otherwise resumes it; the idle
  // fiber then looks at stopping() once, and ends if it is true.
  function Idled(s: Pool, t: nat): Pool
    requires Enabled(s, Idle(t))
  {
    if t in s.idleTerm then s.(pcs := s.pcs[t := Exited])
    else s.(pcs := s.pcs[t := Top], idleTerm := if Quiet(s) then s.idleTerm + {t} else s.idleTerm)
  }

  function Next(s: Pool, e: Event): Pool
    requires Enabled(s, e)
  {
    match e
    case Push(_, job, thread) => Pushed(s, job, thread)
    case Make(f) => s.(fibers := s.fibers[f := READY])
    case TakeTask(t) => Took(s, t)
    case LockFiber(t, made) => LockedFiber(s, t, made)
    case Resume(t) => Resumed(s, t)
    case Yield(t) => Left(s, t, READY)
    case Terminate(t) => Left(s, t, TERM)
    case Unlock(t) => Unlocked(s, t)
    case Finish(t) => Ended(s, t)
    case Idle(t) => Idled(s, t)
    case Stop => s.(stopping := true)
  }

  ghost predicate Init(s: Pool) {
    && s.tasks == [] && s.active == 0 && s.holders == map[] && s.idleTerm == {} && s.places == [] && s.done == []
    && (forall f | f in s.fibers :: s.fibers[f] == READY)
    && forall t | t in s.pcs :: s.pcs[t] == Top
  }

  predicate Legal(s: Pool, es: seq<Event>)
    decreases |es|
  {
    es == [] || (Enabled(s, es[0]) && Legal(Next(s, es[0]), es[1..]))
  }

  function Run(s: Pool, es: seq<Event>): Pool
    requires Legal(s, es)
    decreases |es|
  {
    if es == [] then s else Run(Next(s, es[0]), es[1..])
  }

  // ---- Exclusivity -------------------------------------------------------------------------

  // A fiber's mutex is held by exactly the thread that is between locking and unlocking it.
  ghost predicate MutexInv(pcs: map<nat, Pc>, holders: map<nat, nat>) {
    && (forall t | t in pcs && Holds(pcs[t]) :: pcs[t].fiber in holders && holders[pcs[t].fiber] == t)
    && forall f | f in holders :: holders[f] in pcs && Holds(pcs[holders[f]]) && pcs[holders[f]].fiber == f
  }

  // A fiber is RUNNING exactly while the thread that holds its mutex is inside it.
  ghost predicate RunningInv(pcs: map<nat, Pc>, holders: map<nat, nat>, fibers: map<nat, FState>) {
    && (forall f | f in holders :: f in fibers)
    && forall f | f in fibers ::
         fibers[f] == RUNNING <==> f in holders && holders[f] in pcs && pcs[holders[f]].Inside?
  }

  // Queued and taken tasks name fibers that exist.
  ghost predicate KnownInv(pcs: map<nat, Pc>, tasks: seq<Task>, fibers: map<nat, FState>) {
    && (forall i | 0 <= i < |tasks| :: tasks[i].job.FiberJob? ==> tasks[i].job.fiber in fibers)
    && forall t | t in pcs && pcs[t].InHand? :: pcs[t].task.job.FiberJob? ==> pcs[t].task.job.fiber in fibers
  }

  ghost predicate FiberInv(s: Pool) {
    MutexInv(s.pcs, s.holders) && RunningInv(s.pcs, s.holders, s.fibers) && KnownInv(s.pcs, s.tasks, s.fibers)
  }

  lemma MutexSame(pcs: map<nat, Pc>, holders: map<nat, nat>, t: nat, pc: Pc)
    requires MutexInv(pcs, holders) && t in pcs
    requires Holds(pc) == Holds(pcs[t]) && (Holds(pc) ==> pc.fiber == pcs[t].fiber)
    ensures MutexInv(pcs[t := pc], holders)
  {
  }

  lemma MutexTaken(pcs: map<nat, Pc>, holders: map<nat, nat>, t: nat, x: Task, f: nat)
    requires MutexInv(pcs, holders) && t in pcs && !Holds(pcs[t]) && f !in holders
    ensures MutexInv(pcs[t := Locked(x, f)], holders[f := t])
  {
  }

  lemma MutexReleased(pcs: map<nat, Pc>, holders: map<nat, nat>, t: nat, pc: Pc)
    requires MutexInv(pcs, holders) && t in pcs && Holds(pcs[t]) && !Holds(pc)
    ensures MutexInv(pcs[t := pc], holders - {pcs[t].fiber})
  {
  }

  lemma StepKeepsMutex(s: Pool, e: Event)
    requires FiberInv(s) && Enabled(s, e)
    ensures MutexInv(Next(s, e).pcs, Next(s, e).holders)
  {
    match e
    case Push(_, _, _) =>
    case Make(_) =>
    case Stop =>
    case LockFiber(t, made) =>
      var x := s.pcs[t].task;
      MutexTaken(s.pcs, s.holders, t, x, if x.job.FiberJob? then x.job.fiber else made);
    case Unlock(t) => MutexReleased(s.pcs, s.holders, t, Released(s.pcs[t].task));
    case TakeTask(t) => MutexSame(s.pcs, s.holders, t, Next(s, e).pcs[t]);
    case Resume(t) => MutexSame(s.pcs, s.holders, t, Next(s, e).pcs[t]);
    case Yield(t) => MutexSame(s.pcs, s.holders, t, Next(s, e).pcs[t]);
    case Terminate(t) => MutexSame(s.pcs, s.holders, t, Next(s, e).pcs[t]);
    case Finish(t) => MutexSame(s.pcs, s.holders, t, Next(s, e).pcs[t]);
    case Idle(t) => MutexSame(s.pcs, s.holders, t, Next(s, e).pcs[t]);
  }

  // A thread outside its fiber moves on, and is not inside one afterwards.
  lemma RunningSame(pcs: map<nat, Pc>, holders: map<nat, nat>, fibers: map<nat, FState>, t: nat, pc: Pc)
    requires RunningInv(pcs, holders, fibers) && t in pcs && !pcs[t].Inside? && !pc.Inside?
    ensures RunningInv(pcs[t := pc], holders, fibers)
  {
  }

  // The holder of a fiber's mutex switches into it or out of it.
  lemma RunningSwitch(pcs: map<nat, Pc>, holders: map<nat, nat>, fibers: map<nat, FState>, t: nat, pc: Pc,
                      state: FState)
    requires MutexInv(pcs, holders) && RunningInv(pcs, holders, fibers)
    requires t in pcs && Holds(pcs[t]) && (state == RUNNING <==> pc.Inside?)
    ensures RunningInv(pcs[t := pc], holders, fibers[pcs[t].fiber := state])
  {
  }

  lemma StepKeepsRunning(s: Pool, e: Event)
    requires FiberInv(s) && Enabled(s, e)
    ensures RunningInv(Next(s, e).pcs, Next(s, e).holders, Next(s, e).fibers)
  {
    match e
    case TakeTask(t) => RunningSame(s.pcs, s.holders, s.fibers, t, Next(s, e).pcs[t]);
    case Finish(t) => RunningSame(s.pcs, s.holders, s.fibers, t, Next(s, e).pcs[t]);
    case Idle(t) => RunningSame(s.pcs, s.holders, s.fibers, t, Next(s, e).pcs[t]);
    case Yield(t) => RunningSwitch(s.pcs, s.holders, s.fibers, t, Next(s, e).pcs[t], READY);
    case Terminate(t) => RunningSwitch(s.pcs, s.holders, s.fibers, t, Next(s, e).pcs[t], TERM);
    case Resume(t) =>
      RunningSame(s.pcs, s.holders, s.fibers, t, Back(s.pcs[t].task, s.pcs[t].fiber));
      RunningSwitch(s.pcs, s.holders, s.fibers, t, Inside(s.pcs[t].task, s.pcs[t].fiber), RUNNING);
    case _ =>
  }

  lemma KnownMove(pcs: map<nat, Pc>, tasks: seq<Task>, fibers: map<nat, FState>, t: nat, pc: Pc,
                  fibers': map<nat, FState>)
    requires KnownInv(pcs, tasks, fibers) && fibers.Keys <= fibers'.Keys
    requires pc.InHand? && pc.task.job.FiberJob? ==> pc.task.job.fiber in fibers
    ensures KnownInv(pcs[t := pc], tasks, fibers')
  {
  }

  lemma KnownTake(pcs: map<nat, Pc>, tasks: seq<Task>, fibers: map<nat, FState>, t: nat, n: nat)
    requires KnownInv(pcs, tasks, fibers) && n < |tasks|
    ensures KnownInv(pcs[t := InHand(tasks[n])], tasks[..n] + tasks[n + 1..], fibers)
  {
  }

  // A step of one thread outside the queue.
  predicate OwnStep(e: Event) {
    e.LockFiber? || e.Resume? || e.Yield? || e.Terminate? || e.Unlock? || e.Idle?
  }

  lemma StepKeepsKnown(s: Pool, e: Event)
    requires KnownInv(s.pcs, s.tasks, s.fibers) && Enabled(s, e)
    ensures KnownInv(Next(s, e).pcs, Next(s, e).tasks, Next(s, e).fibers)
  {
    match e
    case Push(_, _, _) =>
    case Make(_) =>
    case Stop =>
    case TakeTask(t) =>
      var n := FirstEligible(s.tasks, t);
      if n < |s.tasks| {
        KnownTake(s.pcs, s.tasks, s.fibers, t, n);
      } else {
        KnownMove(s.pcs, s.tasks, s.fibers, t, NoTask, s.fibers);
      }
    case _ =>
      KnownMove(s.pcs, s.tasks, s.fibers, e.t, Next(s, e).pcs[e.t], Next(s, e).fibers);
  }

  // ---- Conservation ------------------------------------------------------------------------

  ghost predicate InQueue(tasks: seq<Task>, k: nat) {
    exists i :: 0 <= i < |tasks| && tasks[i].ticket == k
  }

  // The queue holds the queued tickets, oldest first.
  ghost predicate QueueInv(tasks: seq<Task>, places: seq<Place>) {
    && (forall i | 0 <= i < |tasks| :: tasks[i].ticket < |places| && places[tasks[i].ticket] == Queued)
    && (forall i, j | 0 <= i < j < |tasks| :: tasks[i].ticket < tasks[j].ticket)
    && forall k | 0 <= k < |places| && places[k] == Queued :: InQueue(tasks, k)
  }

  // A busy thread holds one ticket, and every held ticket has its thread.
  ghost predicate HandInv(pcs: map<nat, Pc>, places: seq<Place>) {
    && (forall t | t in pcs && Busy(pcs[t]) ::
          pcs[t].task.ticket < |places| && places[pcs[t].task.ticket] == HeldBy(t))
    && forall k | 0 <= k < |places| && places[k].HeldBy? ::
         places[k].thread in pcs && Busy(pcs[places[k].thread]) && pcs[places[k].thread].task.ticket == k
  }

  // Finished tickets are recorded once.
  ghost predicate DoneInv(done: seq<nat>, places: seq<Place>) {
    && (forall i | 0 <= i < |done| :: done[i] < |places| && places[done[i]] == Finished)
    && (forall i, j | 0 <= i < j < |done| :: done[i] != done[j])
    && forall k | 0 <= k < |places| && places[k] == Finished :: k in done
  }

  ghost function BusyThreads(pcs: map<nat, Pc>): set<nat> {
    set t | t in pcs && Busy(pcs[t])
  }

  // m_activeThreadCount counts the threads with a task, and no push is unaccounted for.
  ghost predicate CountInv(s: Pool) {
    && s.active == |BusyThreads(s.pcs)|
    && |s.places| == |s.tasks| + s.active + |s.done|
  }

  ghost predicate TicketInv(s: Pool) {
    QueueInv(s.tasks, s.places) && HandInv(s.pcs, s.places) && DoneInv(s.done, s.places) && CountInv(s)
  }

  lemma QueuePush(tasks: seq<Task>, places: seq<Place>, job: Job, thread: int)
    requires QueueInv(tasks, places)
    ensures QueueInv(tasks + [Task(|places|, job, thread)], places + [Queued])
  {
    var tasks', places' := tasks + [Task(|places|, job, thread)], places + [Queued];
    forall k | 0 <= k < |places'| && places'[k] == Queued ensures InQueue(tasks', k) {
      if k < |places| {
        assert places[k] == Queued && InQueue(tasks, k);
        var i :| 0 <= i < |tasks| && tasks[i].ticket == k;
        assert tasks'[i].ticket == k;
      } else {
        assert tasks'[|tasks|].ticket == k;
      }
    }
  }

  lemma RestAt(tasks: seq<Task>, n: nat, i: nat)
    requires n < |tasks| && i < |tasks| - 1
    ensures (tasks[..n] + tasks[n + 1..])[i] == tasks[if i < n then i else i + 1]
  {
  }

  lemma QueueTake(tasks: seq<Task>, places: seq<Place>, n: nat, t: nat)
    requires QueueInv(tasks, places) && n < |tasks|
    ensures QueueInv(tasks[..n] + tasks[n + 1..], places[tasks[n].ticket := HeldBy(t)])
  {
    var rest, places' := tasks[..n] + tasks[n + 1..], places[tasks[n].ticket := HeldBy(t)];
    forall i | 0 <= i < |rest| ensures rest[i].ticket < |places'| && places'[rest[i].ticket] == Queued {
      RestAt(tasks, n, i);
      assert tasks[if i < n then i else i + 1].ticket != tasks[n].ticket;
    }
    forall i, j | 0 <= i < j < |rest| ensures rest[i].ticket < rest[j].ticket {
      RestAt(tasks, n, i);
      RestAt(tasks, n, j);
    }
    forall k | 0 <= k < |places'| && places'[k] == Queued ensures InQueue(rest, k) {
      assert places[k] == Queued && InQueue(tasks, k);
      var i :| 0 <= i < |tasks| && tasks[i].ticket == k;
      var j := if i < n then i else i - 1;
      RestAt(tasks, n, j);
      assert rest[j].ticket == k;
    }
  }

  lemma QueueOther(tasks: seq<Task>, places: seq<Place>, k: nat, p: Place)
    requires QueueInv(tasks, places) && k < |places| && places[k] != Queued && p != Queued
    ensures QueueInv(tasks, places[k := p])
  {
    forall j | 0 <= j < |places| && places[k := p][j] == Queued ensures InQueue(tasks, j) {
      assert places[j] == Queued;
    }
  }

  lemma StepKeepsQueue(s: Pool, e: Event)
    requires TicketInv(s) && Enabled(s, e)
    ensures QueueInv(Next(s, e).tasks, Next(s, e).places)
  {
    match e
    case Push(_, job, thread) => QueuePush(s.tasks, s.places, job, thread);
    case TakeTask(t) =>
      var n := FirstEligible(s.tasks, t);
      if n < |s.tasks| {
        QueueTake(s.tasks, s.places, n, t);
      }
    case Finish(t) => QueueOther(s.tasks, s.places, s.pcs[t].task.ticket, Finished);
    case _ =>
  }

  // A step of one thread that neither takes nor finishes a task.
  predicate SameHand(pc: Pc, pc': Pc) {
    (Busy(pc) <==> Busy(pc')) && (Busy(pc) ==> pc.task == pc'.task)
  }

  lemma HandSame(pcs: map<nat, Pc>, places: seq<Place>, t: nat, pc: Pc)
    requires HandInv(pcs, places) && t in pcs && SameHand(pcs[t], pc)
    ensures HandInv(pcs[t := pc], places) && BusyThreads(pcs[t := pc]) == BusyThreads(pcs)
  {
  }

  lemma HandTake(pcs: map<nat, Pc>, places: seq<Place>, t: nat, x: Task)
    requires HandInv(pcs, places) && t in pcs && !Busy(pcs[t]) && x.ticket < |places| && places[x.ticket] == Queued
    ensures HandInv(pcs[t := InHand(x)], places[x.ticket := HeldBy(t)])
    ensures |BusyThreads(pcs[t := InHand(x)])| == |BusyThreads(pcs)| + 1
  {
    assert BusyThreads(pcs[t := InHand(x)]) == BusyThreads(pcs) + {t};
  }

  lemma HandFinish(pcs: map<nat, Pc>, places: seq<Place>, t: nat)
    requires HandInv(pcs, places) && t in pcs && Busy(pcs[t])
    ensures HandInv(pcs[t := Top], places[pcs[t].task.ticket := Finished])
    ensures |BusyThreads(pcs)| > 0 && |BusyThreads(pcs[t := Top])| == |BusyThreads(pcs)| - 1
  {
    assert t in BusyThreads(pcs);
    assert BusyThreads(pcs[t := Top]) == BusyThreads(pcs) - {t};
  }

  lemma HandPush(pcs: map<nat, Pc>, places: seq<Place>)
    requires HandInv(pcs, places)
    ensures HandInv(pcs, places + [Queued])
  {
  }

  lemma StepKeepsHand(s: Pool, e: Event)
    requires QueueInv(s.tasks, s.places) && HandInv(s.pcs, s.places) && CountInv(s) && Enabled(s, e)
    ensures HandInv(Next(s, e).pcs, Next(s, e).places) && CountInv(Next(s, e))
  {
    match e
    case Push(_, _, _) => HandPush(s.pcs, s.places);
    case Make(_) =>
    case Stop =>
    case Finish(t) => HandFinish(s.pcs, s.places, t);
    case TakeTask(t) =>
      var n := FirstEligible(s.tasks, t);
      if n < |s.tasks| {
        HandTake(s.pcs, s.places, t, s.tasks[n]);
      } else {
        HandSame(s.pcs, s.places, t, NoTask);
      }
    case _ => OwnStepKeepsHand(s, e);
  }

  lemma OwnStepKeepsHand(s: Pool, e: Event)
    requires HandInv(s.pcs, s.places) && CountInv(s) && Enabled(s, e) && OwnStep(e)
    ensures HandInv(Next(s, e).pcs, Next(s, e).places) && CountInv(Next(s, e))
  {
    HandSame(s.pcs, s.places, e.t, Next(s, e).pcs[e.t]);
  }

  lemma DonePush(done: seq<nat>, places: seq<Place>)
    requires DoneInv(done, places)
    ensures DoneInv(done, places + [Queued])
  {
  }

  lemma DoneTake(done: seq<nat>, places: seq<Place>, k: nat, t: nat)
    requires DoneInv(done, places) && k < |places| && places[k] == Queued
    ensures DoneInv(done, places[k := HeldBy(t)])
  {
  }

  lemma DoneFinish(done: seq<nat>, places: seq<Place>, k: nat)
    requires DoneInv(done, places) && k < |places| && places[k].HeldBy?
    ensures DoneInv(done + [k], places[k := Finished])
  {
  }

  lemma StepKeepsDone(s: Pool, e: Event)
    requires TicketInv(s) && Enabled(s, e)
    ensures DoneInv(Next(s, e).done, Next(s, e).places)
  {
    match e
    case Push(_, _, _) => DonePush(s.done, s.places);
    case TakeTask(t) =>
      var n := FirstEligible(s.tasks, t);
      if n < |s.tasks| {
        DoneTake(s.done, s.places, s.tasks[n].ticket, t);
      }
    case Finish(t) => DoneFinish(s.done, s.places, s.pcs[t].task.ticket);
    case _ =>
  }

  // ---- Leaving -------------------------------------------------------------------------------

  // A worker whose idle fiber ended, or that left, did so when nothing was left to do.
  ghost predicate LeaveInv(s: Pool) {
    && (s.idleTerm != {} ==> Quiet(s))
    && forall t | t in s.pcs && s.pcs[t] == Exited :: t in s.idleTerm
  }

  // After stop(), only running tasks push more.
  predicate Orderly(s: Pool, e: Event) {
    e.Push? && e.who.None? ==> !s.stopping
  }

  // stopping() is stable.
  lemma QuietIsStable(s: Pool, e: Event)
    requires TicketInv(s) && Quiet(s) && Enabled(s, e) && Orderly(s, e)
    ensures Quiet(Next(s, e))
  {
    assert forall t | t in s.pcs :: Busy(s.pcs[t]) ==> t in BusyThreads(s.pcs);
  }

  lemma StepKeepsLeave(s: Pool, e: Event)
    requires TicketInv(s) && LeaveInv(s) && Enabled(s, e) && Orderly(s, e)
    ensures LeaveInv(Next(s, e))
  {
    if Quiet(s) {
      QuietIsStable(s, e);
    }
  }

  // ---- Runs -----------------------------------------------------------------------------------

  ghost predicate Inv(s: Pool) {
    FiberInv(s) && TicketInv(s)
  }

  lemma InitHolds(s: Pool)
    requires Init(s)
    ensures Inv(s) && LeaveInv(s)
  {
    assert BusyThreads(s.pcs) == {};
  }

  lemma StepKeepsInv(s: Pool, e: Event)
    requires Inv(s) && Enabled(s, e)
    ensures Inv(Next(s, e))
  {
    StepKeepsMutex(s, e);
    StepKeepsRunning(s, e);
    StepKeepsKnown(s, e);
    StepKeepsQueue(s, e);
    StepKeepsHand(s, e);
    StepKeepsDone(s, e);
  }

  lemma {:induction false} RunKeepsInv(s: Pool, es: seq<Event>)
    requires Inv(s) && Legal(s, es)
    ensures Inv(Run(s, es))
    decreases |es|
  {
    if es != [] {
      StepKeepsInv(s, es[0]);
      RunKeepsInv(Next(s, es[0]), es[1..]);
    }
  }

  ghost predicate InsideOf(s: Pool, t: nat, f: nat) {
    t in s.pcs && s.pcs[t].Inside? && s.pcs[t].fiber == f
  }

  // For every run, with fibers queued any number of times and even while they run: no two threads
  // are inside one fiber, a fiber is RUNNING exactly while some thread is inside it, and the
  // assertion of resume() holds whenever run() reaches it.
  lemma FibersAreExclusive(s0: Pool, es: seq<Event>)
    requires Init(s0) && Legal(s0, es)
    ensures var s := Run(s0, es);
            && (forall f, t, u | InsideOf(s, t, f) && InsideOf(s, u, f) :: t == u)
            && (forall f | f in s.fibers :: s.fibers[f] == RUNNING <==> exists t :: InsideOf(s, t, f))
            && forall t | t in s.pcs && s.pcs[t].Locked? ::
                 s.pcs[t].fiber in s.fibers && s.fibers[s.pcs[t].fiber] in {READY, TERM}
  {
    InitHolds(s0);
    RunKeepsInv(s0, es);
    var s := Run(s0, es);
    forall f | f in s.fibers ensures s.fibers[f] == RUNNING <==> exists t :: InsideOf(s, t, f) {
      if s.fibers[f] == RUNNING {
        assert InsideOf(s, s.holders[f], f);
      }
    }
  }

  lemma TermStays(s: Pool, e: Event, f: nat)
    requires FiberInv(s) && Enabled(s, e) && f in s.fibers && s.fibers[f] == TERM
    ensures f in Next(s, e).fibers && Next(s, e).fibers[f] == TERM
  {
  }

  lemma {:induction false} RunKeepsTerm(s: Pool, es: seq<Event>, f: nat)
    requires Inv(s) && Legal(s, es) && f in s.fibers && s.fibers[f] == TERM
    ensures f in Run(s, es).fibers && Run(s, es).fibers[f] == TERM && Inv(Run(s, es))
    decreases |es|
  {
    if es != [] {
      StepKeepsInv(s, es[0]);
      TermStays(s, es[0], f);
      RunKeepsTerm(Next(s, es[0]), es[1..], f);
    }
  }

  // A fiber whose function has returned is never entered again, however often it is still queued.
  lemma EndedFiberNeverRunsAgain(s: Pool, t: nat, es: seq<Event>)
    requires Inv(s) && Enabled(s, Terminate(t)) && Legal(Next(s, Terminate(t)), es)
    ensures var f, s' := s.pcs[t].fiber, Run(Next(s, Terminate(t)), es);
            forall u | u in s'.pcs :: !InsideOf(s', u, f)
  {
    StepKeepsInv(s, Terminate(t));
    RunKeepsTerm(Next(s, Terminate(t)), es, s.pcs[t].fiber);
  }

  // For every run: each pushed task is in exactly one place, the queue, one thread's hand or the
  // finished ones; and m_activeThreadCount is the number of threads with a task in hand.
  lemma NoTaskIsLost(s0: Pool, es: seq<Event>)
    requires Init(s0) && Legal(s0, es)
    ensures var s := Run(s0, es);
            && |s.places| == |s.tasks| + |BusyThreads(s.pcs)| + |s.done| && s.active == |BusyThreads(s.pcs)|
            && forall k | 0 <= k < |s.places| ::
                 && (InQueue(s.tasks, k) <==> s.places[k] == Queued)
                 && (k in s.done <==> s.places[k] == Finished)
                 && forall t | t in s.pcs ::
                      (Busy(s.pcs[t]) && s.pcs[t].task.ticket == k) <==> s.places[k] == HeldBy(t)
  {
    InitHolds(s0);
    RunKeepsInv(s0, es);
  }

  predicate OrderlyRun(s: Pool, es: seq<Event>)
    requires Legal(s, es)
    decreases |es|
  {
    es == [] || (Orderly(s, es[0]) && OrderlyRun(Next(s, es[0]), es[1..]))
  }

  lemma {:induction false} RunKeepsLeave(s: Pool, es: seq<Event>)
    requires Inv(s) && LeaveInv(s) && Legal(s, es) && OrderlyRun(s, es)
    ensures Inv(Run(s, es)) && LeaveInv(Run(s, es)) && (Quiet(s) ==> Quiet(Run(s, es)))
    decreases |es|
  {
    if es != [] {
      StepKeepsInv(s, es[0]);
      StepKeepsLeave(s, es[0]);
      if Quiet(s) {
        QuietIsStable(s, es[0]);
      }
      RunKeepsLeave(Next(s, es[0]), es[1..]);
    }
  }

  lemma QuietHoldsNothing(s: Pool)
    requires TicketInv(s) && Quiet(s)
    ensures forall k | 0 <= k < |s.places| :: s.places[k] == Finished && k in s.done
  {
    assert BusyThreads(s.pcs) == {};
    forall k | 0 <= k < |s.places| ensures !s.places[k].HeldBy? && s.places[k] != Queued {
      assert forall t | t in s.pcs && Busy(s.pcs[t]) :: t in BusyThreads(s.pcs);
      assert !InQueue(s.tasks, k);
    }
  }

  // Once one worker has left run(), every task ever pushed has completed, and completed once.
  lemma WorkersLeaveAfterTheLastTask(s0: Pool, es: seq<Event>, t: nat)
    requires Init(s0) && Legal(s0, es) && OrderlyRun(s0, es)
    requires t in Run(s0, es).pcs && Run(s0, es).pcs[t] == Exited
    ensures var s := Run(s0, es);
            && Quiet(s) && |s.done| == |s.places|
            && (forall k | 0 <= k < |s.places| :: k in s.done)
            && forall i, j | 0 <= i < j < |s.done| :: s.done[i] != s.done[j]
  {
    InitHolds(s0);
    RunKeepsLeave(s0, es);
    var s := Run(s0, es);
    assert t in s.idleTerm;
    QuietHoldsNothing(s);
  }

  // ---- When a queued task can still be taken -----------------------------------------------------

  // The thread has left run(), or is about to: its idle fiber has ended and it found no task.
  predicate Gone(s: Pool, t: nat) {
    t in s.pcs && (s.pcs[t].Exited? || (s.pcs[t].NoTask? && t in s.idleTerm))
  }

  predicate Takes(s: Pool, t: nat, x: Task) {
    t in s.pcs && Busy(s.pcs[t]) && s.pcs[t].task == x
  }

  ghost predicate TakenAfter(s: Pool, es: seq<Event>, t: nat, x: Task) {
    Legal(s, es) && Takes(Run(s, es), t, x)
  }

  // Every thread that may run x is gone.
  ghost predicate Abandoned(s: Pool, x: Task) {
    x in s.tasks && forall t | t in s.pcs && Eligible(x, t) :: Gone(s, t)
  }

  lemma AbandonedStays(s: Pool, e: Event, x: Task)
    requires Enabled(s, e) && Abandoned(s, x)
    ensures Abandoned(Next(s, e), x)
  {
    if e.TakeTask? {
      var k := FirstEligible(s.tasks, e.t);
      var i :| 0 <= i < |s.tasks| && s.tasks[i] == x;
      assert !Gone(s, e.t);
      if k < |s.tasks| {
        assert (s.tasks[..k] + s.tasks[k + 1..])[if i < k then i else i - 1] == x;
      }
    }
  }

  // A queued task is in nobody's hand.
  lemma QueuedIsNotTaken(s: Pool, t: nat, x: Task)
    requires TicketInv(s) && x in s.tasks
    ensures !Takes(s, t, x)
  {
  }

  lemma {:induction false} AbandonedIsNeverTaken(s: Pool, es: seq<Event>, t: nat, x: Task)
    requires Inv(s) && Abandoned(s, x)
    ensures !TakenAfter(s, es, t, x)
    decreases |es|
  {
    if es == [] {
      QueuedIsNotTaken(s, t, x);
    } else if Legal(s, es) {
      StepKeepsInv(s, es[0]);
      AbandonedStays(s, es[0], x);
      AbandonedIsNeverTaken(Next(s, es[0]), es[1..], t, x);
    }
  }

  lemma Prepend(s: Pool, e: Event, es: seq<Event>)
    requires Enabled(s, e) && Legal(Next(s, e), es)
    ensures Legal(s, [e] + es) && Run(s, [e] + es) == Run(Next(s, e), es)
  {
    assert ([e] + es)[1..] == es;
  }

  lemma {:induction false} Concat(s: Pool, es: seq<Event>, more: seq<Event>)
    requires Legal(s, es) && Legal(Run(s, es), more)
    ensures Legal(s, es + more) && Run(s, es + more) == Run(Run(s, es), more)
    decreases |es|
  {
    if es == [] {
      assert es + more == more;
    } else {
      Concat(Next(s, es[0]), es[1..], more);
      assert (es + more)[1..] == es[1..] + more;
    }
  }

  // The steps between the present place of a thread and the top of its loop.
  function Rank(pc: Pc): nat {
    match pc
    case InHand(_) => 5
    case Locked(_, _) => 4
    case Inside(_, _) => 3
    case Back(_, _) => 2
    case Released(_) => 1
    case NoTask => 1
    case _ => 0
  }

  // The step that takes a thread towards the top when no lock is in its way.
  function Onward(pc: Pc, t: nat): Event {
    if pc.Locked? then Resume(t) else if pc.Inside? then Yield(t) else if pc.Back? then Unlock(t)
    else if pc.Released? then Finish(t) else Idle(t)
  }

  // A step that pushes nothing and ends no fiber's function.
  predicate Plain(e: Event) {
    !e.Push? && !e.Terminate? && !e.Make? && !e.Stop?
  }

  // A step of a thread on its way to the top of its loop, and one in which it only locks, enters or
  // leaves a fiber.
  predicate Homeward(e: Event) {
    Plain(e) && !e.TakeTask?
  }

  predicate Handing(e: Event) {
    e.LockFiber? || e.Resume? || e.Yield? || e.Unlock?
  }

  lemma OnwardMoves(s: Pool, t: nat)
    requires t in s.pcs && s.pcs[t] != Top && !s.pcs[t].InHand? && !Gone(s, t) && s.tasks != []
    ensures var e := Onward(s.pcs[t], t);
            && Enabled(s, e)
            && var s' := Next(s, e);
            && s'.tasks == s.tasks && s'.idleTerm == s.idleTerm && s'.pcs == s.pcs[t := s'.pcs[t]]
            && Rank(s'.pcs[t]) < Rank(s.pcs[t]) && !Gone(s', t)
  {
  }

  lemma OneStepHome(s: Pool, t: nat)
    requires Inv(s) && t in s.pcs && s.pcs[t] != Top && !s.pcs[t].InHand? && !Gone(s, t) && s.tasks != []
    ensures var e := Onward(s.pcs[t], t);
            && Enabled(s, e) && Homeward(e)
            && var s' := Next(s, e);
            && Inv(s') && s'.tasks == s.tasks && t in s'.pcs && Rank(s'.pcs[t]) < Rank(s.pcs[t]) && !Gone(s', t)
  {
    OnwardMoves(s, t);
    StepKeepsInv(s, Onward(s.pcs[t], t));
  }

  lemma ReleaseMoves(s: Pool, u: nat)
    requires u in s.pcs && Holds(s.pcs[u])
    ensures var pc, e := s.pcs[u], Onward(s.pcs[u], u);
            && Enabled(s, e)
            && var s' := Next(s, e);
            && s'.tasks == s.tasks && s'.idleTerm == s.idleTerm && s'.pcs == s.pcs[u := s'.pcs[u]]
            && Rank(s'.pcs[u]) < Rank(pc)
            && (if pc.Back? then s'.holders == s.holders - {pc.fiber} && s'.pcs[u] == Released(pc.task)
                else
                  && s'.holders == s.holders && Holds(s'.pcs[u])
                  && s'.pcs[u].fiber == pc.fiber && s'.pcs[u].task == pc.task)
  {
  }

  // A thread that holds a fiber's mutex can always give it back.
  lemma {:induction false} CanRelease(s: Pool, u: nat) returns (es: seq<Event>)
    requires u in s.pcs && Holds(s.pcs[u])
    ensures Legal(s, es) && forall e | e in es :: Handing(e)
    ensures var s' := Run(s, es);
            && s'.tasks == s.tasks && s'.idleTerm == s.idleTerm
            && s'.holders == s.holders - {s.pcs[u].fiber} && s'.pcs == s.pcs[u := Released(s.pcs[u].task)]
    decreases Rank(s.pcs[u])
  {
    var e := Onward(s.pcs[u], u);
    ReleaseMoves(s, u);
    var rest := [];
    if !s.pcs[u].Back? {
      rest := CanRelease(Next(s, e), u);
    }
    Prepend(s, e, rest);
    es := [e] + rest;
  }

  lemma UnusedFiber(fibers: map<nat, FState>) returns (f: nat)
    ensures f !in fibers
  {
    f := Above(fibers.Keys);
  }

  lemma {:induction false} Above(keys: set<nat>) returns (bound: nat)
    ensures forall k | k in keys :: k < bound
  {
    bound := 0;
    if keys != {} {
      var k := Member(keys);
      var rest := Above(keys - {k});
      bound := if rest <= k then k + 1 else rest;
      assert keys == keys - {k} + {k};
    }
  }

  // A thread with a task in hand can wait until the task's fiber is given back.
  lemma CanWait(s: Pool, t: nat) returns (es: seq<Event>)
    requires Inv(s) && t in s.pcs && s.pcs[t].InHand?
    ensures Legal(s, es) && forall e | e in es :: Handing(e)
    ensures var s' := Run(s, es);
            && Inv(s') && s'.tasks == s.tasks && s'.idleTerm == s.idleTerm && t in s'.pcs && s'.pcs[t] == s.pcs[t]
            && (s.pcs[t].task.job.FiberJob? ==> s.pcs[t].task.job.fiber !in s'.holders)
  {
    var x := s.pcs[t].task;
    es := [];
    if x.job.FiberJob? && x.job.fiber in s.holders {
      es := CanRelease(s, s.holders[x.job.fiber]);
    }
    RunKeepsInv(s, es);
  }

  // Then it can lock that fiber.
  lemma CanLock(s: Pool, t: nat) returns (es: seq<Event>)
    requires Inv(s) && t in s.pcs && s.pcs[t].InHand?
    ensures Legal(s, es) && forall e | e in es :: Handing(e)
    ensures var s' := Run(s, es);
            && Inv(s') && s'.tasks == s.tasks && s'.idleTerm == s.idleTerm && t in s'.pcs && s'.pcs[t].Locked?
            && s'.pcs[t].task == s.pcs[t].task
            && (s.pcs[t].task.job.FiberJob? ==> s'.pcs[t].fiber == s.pcs[t].task.job.fiber)
  {
    var before := CanWait(s, t);
    var s1 := Run(s, before);
    var made := UnusedFiber(s1.fibers);
    StepKeepsInv(s1, LockFiber(t, made));
    Prepend(s1, LockFiber(t, made), []);
    Concat(s, before, [LockFiber(t, made)] + []);
    es := before + ([LockFiber(t, made)] + []);
  }

  // A thread that is not gone can always come back to the top of its loop while a task is queued.
  lemma {:induction false} CanComeBack(s: Pool, t: nat) returns (es: seq<Event>)
    requires Inv(s) && t in s.pcs && !Gone(s, t) && s.tasks != []
    ensures Legal(s, es) && forall e | e in es :: Homeward(e)
    ensures var s' := Run(s, es); Inv(s') && s'.tasks == s.tasks && t in s'.pcs && s'.pcs[t] == Top
    decreases Rank(s.pcs[t])
  {
    es := [];
    if s.pcs[t].InHand? {
      var first := CanLock(s, t);
      var rest := CanComeBack(Run(s, first), t);
      Concat(s, first, rest);
      es := first + rest;
    } else if s.pcs[t] != Top {
      var e := Onward(s.pcs[t], t);
      OneStepHome(s, t);
      var rest := CanComeBack(Next(s, e), t);
      Prepend(s, e, rest);
      es := [e] + rest;
    }
  }

  lemma TakeMoves(s: Pool, t: nat, x: Task)
    requires t in s.pcs && s.pcs[t] == Top && x in s.tasks && Eligible(x, t)
    ensures Enabled(s, TakeTask(t))
    ensures var k, s' := FirstEligible(s.tasks, t), Next(s, TakeTask(t));
            && k < |s.tasks| && s'.pcs == s.pcs[t := InHand(s.tasks[k])]
            && |s'.tasks| < |s.tasks| && (s.tasks[k] != x ==> x in s'.tasks)
  {
    var k := FirstEligible(s.tasks, t);
    var i :| 0 <= i < |s.tasks| && s.tasks[i] == x;
    if s.tasks[k] != x {
      assert (s.tasks[..k] + s.tasks[k + 1..])[if i < k then i else i - 1] == x;
    }
  }

  // A thread at the top that may run x can take tasks until it reaches x.
  lemma {:induction false} CanTake(s: Pool, t: nat, x: Task) returns (es: seq<Event>)
    requires Inv(s) && t in s.pcs && s.pcs[t] == Top && x in s.tasks && Eligible(x, t)
    ensures TakenAfter(s, es, t, x) && Run(s, es).pcs[t] == InHand(x) && forall e | e in es :: Plain(e)
    decreases |s.tasks|
  {
    var s1 := Next(s, TakeTask(t));
    TakeMoves(s, t, x);
    StepKeepsInv(s, TakeTask(t));
    var rest := [];
    if s1.pcs[t].task != x {
      var back := CanComeBack(s1, t);
      var more := CanTake(Run(s1, back), t, x);
      Concat(s1, back, more);
      rest := back + more;
    }
    Prepend(s, TakeTask(t), rest);
    es := [TakeTask(t)] + rest;
  }

  // A queued task can still be taken if and only if some thread that may run it is not gone.
  lemma TakenIffNotAbandoned(s: Pool, x: Task)
    requires Inv(s) && x in s.tasks
    ensures (exists es, t :: TakenAfter(s, es, t, x)) <==> exists t :: t in s.pcs && Eligible(x, t) && !Gone(s, t)
  {
    if t :| t in s.pcs && Eligible(x, t) && !Gone(s, t) {
      var back := CanComeBack(s, t);
      var more := CanTake(Run(s, back), t, x);
      Concat(s, back, more);
      assert TakenAfter(s, back + more, t, x);
    } else {
      forall es, t ensures !TakenAfter(s, es, t, x) {
        AbandonedIsNeverTaken(s, es, t, x);
      }
    }
  }

  // It happens: a push from outside after stop() finds the only worker about to leave.
  lemma IdleWorkerIsGone(s: Pool)
    requires s.pcs == map[0 := Top] && s.tasks == [] && s.active == 0 && s.stopping && s.idleTerm == {}
    ensures var s1 := Next(s, TakeTask(0));
            && Enabled(s1, Idle(0))
            && var s2 := Next(s1, Idle(0));
            && Enabled(s2, TakeTask(0))
            && var s3 := Next(s2, TakeTask(0));
            s3.pcs == map[0 := NoTask] && s3.idleTerm == {0} && s3.tasks == []
  {
    assert FirstEligible(s.tasks, 0) == 0;
  }

  lemma LatePushIsStranded(s0: Pool, job: Job, thread: int)
    requires Init(s0) && s0.pcs == map[0 := Top] && job.CbJob?
    ensures var es := [Stop] + ([TakeTask(0)] + ([Idle(0)] + ([TakeTask(0)] + ([Push(None, job, thread)] + []))));
            && Legal(s0, es)
            && var s := Run(s0, es);
               s.tasks == [Task(|s0.places|, job, thread)] && Abandoned(s, Task(|s0.places|, job, thread))
  {
    var s1 := Next(s0, Stop);
    IdleWorkerIsGone(s1);
    var s2 := Next(s1, TakeTask(0));
    var s3 := Next(s2, Idle(0));
    var s4 := Next(s3, TakeTask(0));
    Prepend(s4, Push(None, job, thread), []);
    Prepend(s3, TakeTask(0), [Push(None, job, thread)] + []);
    Prepend(s2, Idle(0), [TakeTask(0)] + ([Push(None, job, thread)] + []));
    Prepend(s1, TakeTask(0), [Idle(0)] + ([TakeTask(0)] + ([Push(None, job, thread)] + [])));
    Prepend(s0, Stop, [TakeTask(0)] + ([Idle(0)] + ([TakeTask(0)] + ([Push(None, job, thread)] + []))));
  }
}

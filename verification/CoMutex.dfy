/** clsCoMutex (libco/co_comm.cpp): a counter and a condition variable. The mutex is run on top of
    the event loop's state machine: a queued coroutine is resumed only when the drain pops its item. */
module CoMutex {
  import opened Sequences
  import opened TimeoutItem
  import opened EventLoop
  import C = CoEpoll
  import T = TimingWheel

  datatype Option<T> = None | Some(value: T)

  datatype Mutex = Mutex(
    loop: Loop,
    cond: nat,            // m_ptCondSignal
    cnt: int,             // m_iWaitItemCnt
    // History, read by the properties only.
    inside: set<nat>,     // coroutines between the return of CoLock and CoUnLock
    heir: Option<Item>,   // the wait that CoUnLock signalled and the drain has not resumed yet
    arrived: seq<nat>,    // calls of CoLock, by coroutine
    granted: seq<nat>     // returns of CoLock
  )

  function NewMutex(loop: Loop, cond: nat): Mutex {
    Mutex(loop, cond, 0, {}, None, [], [])
  }

  // x is the wait the caller would enter, which only happens when the count is positive.
  function Locked(m: Mutex, x: Item, now: nat): Mutex
    requires |m.loop.wheel.slots| > 0 && x.kind.Cond?
  {
    var m1 := m.(cnt := m.cnt + 1, arrived := m.arrived + [x.co]);
    if m.cnt > 0 then m1.(loop := CondWait(m.loop, x, now))
    else m1.(inside := m.inside + {x.co}, granted := m.granted + [x.co])
  }

  function Unlocked(m: Mutex, co: nat): Mutex {
    var q := Queue(m.loop, m.cond);
    m.(cnt := m.cnt - 1, inside := m.inside - {co}, loop := Signal(m.loop, m.cond),
       heir := if q == [] then m.heir else Some(q[0]))
  }

  // Any other step of the loop; when the drain resumes a wait on the mutex, CoLock returns.
  function LoopStep(m: Mutex, e: Event): Mutex
    requires |m.loop.wheel.slots| > 0 && Enabled(m.loop, e)
  {
    var m1 := m.(loop := Apply(m.loop, e));
    if e.EDrain? && On(m.loop.active[0], m.cond) && m1.loop.resumed != m.loop.resumed then
      var co := m.loop.active[0].co;
      m1.(inside := m.inside + {co}, granted := m.granted + [co], heir := None)
    else m1
  }

  predicate On(x: Item, cond: nat) {
    x.kind.Cond? && x.kind.cond == cond
  }

  datatype Step = Lock(x: Item, now: nat) | Unlock(co: nat) | Other(e: Event)

  // A coroutine locks while it runs and does not hold the mutex, unlocks only what it holds, and
  // nobody else uses the mutex's condition.
  predicate Enabled'(m: Mutex, t: Step) {
    match t
    case Lock(x, now) => Enabled(m.loop, ECondWait(x, now)) && x.kind == Cond(m.cond, false) && x.co !in m.inside
    case Unlock(co) => co in m.inside
    case Other(e) => Enabled(m.loop, e) && Foreign(m.cond, e)
  }

  predicate Foreign(cond: nat, e: Event) {
    match e
    case ESignal(c) => c != cond
    case EBroadcast(c) => c != cond
    case ECondWait(x, _) => x.kind.Cond? ==> x.kind.cond != cond
    case _ => true
  }

  function Next(m: Mutex, t: Step): Mutex
    requires |m.loop.wheel.slots| > 0 && Enabled'(m, t)
  {
    match t
    case Lock(x, now) => Locked(m, x, now)
    case Unlock(co) => Unlocked(m, co)
    case Other(e) => LoopStep(m, e)
  }

  // ---- The invariant ---------------------------------------------------------------------

  ghost predicate MutexInv(m: Mutex) {
    && EventLoop.Inv(m.loop)
    && UntimedInv(m.loop.used, m.cond)
    && ExclusiveInv(m.inside, m.heir)
    && CountInv(m.cnt, m.inside, m.heir, Queue(m.loop, m.cond))
    && HeirInv(m.heir, m.loop.active, m.cond)
    && OrderInv(m.arrived, m.granted, m.heir, Queue(m.loop, m.cond))
  }

  // Every wait on the mutex's condition is one of CoLock's, which never time out.
  ghost predicate UntimedInv(used: set<Item>, cond: nat) {
    forall x | x in used && On(x, cond) :: Untimed(x)
  }

  // At most one coroutine holds the mutex, and none while an heir is about to be resumed.
  ghost predicate ExclusiveInv(inside: set<nat>, heir: Option<Item>) {
    && (forall a, b | a in inside && b in inside :: a == b)
    && (heir.Some? ==> inside == {})
  }

  predicate Busy(inside: set<nat>, heir: Option<Item>) {
    inside != {} || heir.Some?
  }

  // The count is the holder or heir plus the queue, and a free mutex has no queue.
  ghost predicate CountInv(cnt: int, inside: set<nat>, heir: Option<Item>, q: seq<Item>) {
    if Busy(inside, heir) then cnt == |q| + 1 else cnt == 0 && q == []
  }

  // The heir, and nobody else waiting on the mutex, is on the active list.
  ghost predicate HeirInv(heir: Option<Item>, active: seq<Item>, cond: nat) {
    && (heir.Some? ==> heir.value in active && On(heir.value, cond))
    && forall x | x in active && On(x, cond) :: heir == Some(x)
  }

  // First come, first served: those who arrived were granted the mutex, or are the heir, or queue,
  // in this order.
  ghost predicate OrderInv(arrived: seq<nat>, granted: seq<nat>, heir: Option<Item>, q: seq<Item>) {
    arrived == granted + Heir(heir) + Coroutines(q)
  }

  function Heir(heir: Option<Item>): seq<nat> {
    if heir.Some? then [heir.value.co] else []
  }

  function Coroutines(q: seq<Item>): (cs: seq<nat>)
    ensures |cs| == |q|
  {
    seq(|q|, i requires 0 <= i < |q| => q[i].co)
  }

  // ---- Other steps leave the mutex's waits alone ---------------------------------------------

  ghost predicate SameMutexWaits(cond: nat, s: Loop, s': Loop) {
    && Queue(s', cond) == Queue(s, cond)
    && forall x: Item | On(x, cond) :: x in s'.active <==> x in s.active
  }

  lemma {:induction false} BroadcastElsewhere(s: Loop, c: nat, cond: nat)
    requires EventLoop.Inv(s) && c != cond
    ensures SameMutexWaits(cond, s, Broadcast(s, c)) && Broadcast(s, c).used == s.used
    decreases |Queue(s, c)|
  {
    if Queue(s, c) != [] {
      SignalElsewhere(s, c, cond);
      SignalKeepsInv(s, c);
      BroadcastElsewhere(Signal(s, c), c, cond);
    }
  }

  lemma SignalElsewhere(s: Loop, c: nat, cond: nat)
    requires EventLoop.Inv(s) && c != cond
    ensures SameMutexWaits(cond, s, Signal(s, c))
  {
    var q := Queue(s, c);
    if q != [] {
      SignalMoves(s, c);
      assert QueueInv(s.queues[c], c, s.waiting);
      assert q[0] in q;
    }
  }

  lemma TakeElsewhere(s: Loop, now: nat, cond: nat)
    requires EventLoop.Inv(s) && Enabled(s, ETake(now))
    requires UntimedInv(s.used, cond)
    ensures SameMutexWaits(cond, s, Take(s, now))
  {
    TakeFacts(s, now);
    forall x | x in T.TakeAllTimeout(s.wheel, now).1 ensures !On(x, cond) {
      assert T.Reached(s.wheel, x, now, s.tick);
      PendingIsTimed(s, x);
      assert s.waiting[x.co] in s.used;
    }
  }

  lemma EventElsewhere(s: Loop, x: Item, cond: nat)
    requires EventLoop.Inv(s) && x.kind.Poll?
    ensures SameMutexWaits(cond, s, EventReady(s, x)) && EventReady(s, x).used == s.used
  {
    ActivateFacts(s.(detached := s.detached + {x}), x);
  }

  lemma WaitElsewhere(s: Loop, x: Item, now: nat, cond: nat)
    requires |s.wheel.slots| > 0 && x.kind.Cond? && x.kind.cond != cond
    ensures SameMutexWaits(cond, s, CondWait(s, x, now)) && CondWait(s, x, now).used <= s.used + {x}
  {
  }

  lemma StepElsewhere(s: Loop, e: Event, cond: nat)
    requires EventLoop.Inv(s) && Enabled(s, e) && Foreign(cond, e) && !e.EDrain?
    requires UntimedInv(s.used, cond)
    ensures SameMutexWaits(cond, s, Apply(s, e))
    ensures UntimedInv(Apply(s, e).used, cond)
  {
    match e
    case EEventReady(x) => EventElsewhere(s, x, cond);
    case ETake(now) => TakeElsewhere(s, now, cond);
    case EDrain =>
    case EEndDrain =>
    case ESignal(c) => SignalElsewhere(s, c, cond);
    case EBroadcast(c) => BroadcastElsewhere(s, c, cond);
    case ECondWait(x, now) => WaitElsewhere(s, x, now, cond);
    case EPollWait(x, now) =>
  }

  // ---- Every step keeps the invariant ---------------------------------------------------

  // What one turn of the drain does to the mutex's waits: its head, if it is one, is resumed.
  lemma DrainElsewhere(s: Loop, cond: nat)
    requires EventLoop.Inv(s) && Enabled(s, EDrain) && UntimedInv(s.used, cond)
    ensures var x, s' := s.active[0], Drain(s);
            && Queue(s', cond) == Queue(s, cond) && s'.used == s.used && s'.active == s.active[1..]
            && (forall y :: y in s.active <==> y in s'.active || y == x) && x !in s'.active
            && (On(x, cond) ==> s'.resumed == s.resumed + [x])
  {
    var x := s.active[0];
    DrainFacts(s);
    DrainNeverEarly(s);
    HeadFacts(s);
    if On(x, cond) {
      assert Untimed(x) && x !in s.flagged;
      NotQueued(s, x);
      DropAbsent(Queue(s, cond), x);
    }
  }

  // An untimed wait that is active has left its queue.
  lemma NotQueued(s: Loop, x: Item)
    requires EventLoop.Inv(s) && x in s.active && Untimed(x)
    ensures x !in Queue(s, x.kind.cond)
  {
    assert Linked(s)[x] > 0;
    assert Findable(s.waiting[x.co], T.Pending(s.wheel), s.active, s.queues);
  }

  function Entered(m: Mutex, s': Loop, co: nat): Mutex {
    m.(loop := s', inside := m.inside + {co}, granted := m.granted + [co], heir := None)
  }

  // The drain pops a wait of the mutex only if it is the heir's, and then resumes it.
  lemma HeadIsHeir(m: Mutex)
    requires MutexInv(m) && Enabled(m.loop, EDrain) && On(m.loop.active[0], m.cond)
    ensures var x := m.loop.active[0];
            && m.heir == Some(x) && m.inside == {} && Drain(m.loop).resumed == m.loop.resumed + [x]
            && LoopStep(m, EDrain) == Entered(m, Drain(m.loop), x.co)
  {
    DrainElsewhere(m.loop, m.cond);
    assert |m.loop.resumed + [m.loop.active[0]]| != |m.loop.resumed|;
  }

  lemma HeirEnters(m: Mutex)
    requires MutexInv(m) && Enabled(m.loop, EDrain) && On(m.loop.active[0], m.cond)
    ensures MutexInv(LoopStep(m, EDrain))
    ensures var x, m' := m.loop.active[0], LoopStep(m, EDrain);
            && m.heir == Some(x) && m'.heir == None && m'.loop.resumed == m.loop.resumed + [x]
            && m'.inside == {x.co} && m'.granted == m.granted + [x.co]
            && m'.cnt == m.cnt && m'.arrived == m.arrived
  {
    HeadIsHeir(m);
    HeirKeepsMutex(m);
  }

  lemma HeirKeepsMutex(m: Mutex)
    requires MutexInv(m) && Enabled(m.loop, EDrain) && On(m.loop.active[0], m.cond)
    ensures MutexInv(Entered(m, Drain(m.loop), m.loop.active[0].co))
  {
    DrainElsewhere(m.loop, m.cond);
    StepKeepsInv(m.loop, EDrain);
    EnteredKeepsMutex(m, Drain(m.loop), m.loop.active[0]);
  }

  lemma EnteredKeepsMutex(m: Mutex, s': Loop, x: Item)
    requires MutexInv(m) && EventLoop.Inv(s') && x in m.loop.active && On(x, m.cond)
    requires Queue(s', m.cond) == Queue(m.loop, m.cond) && s'.used == m.loop.used
    requires (forall y :: y in m.loop.active <==> y in s'.active || y == x) && x !in s'.active
    ensures MutexInv(Entered(m, s', x.co))
  {
    assert m.heir == Some(x);
    OrderAfterGrant(m.arrived, m.granted, x, Queue(m.loop, m.cond));
  }

  lemma OrderAfterGrant(arrived: seq<nat>, granted: seq<nat>, x: Item, q: seq<Item>)
    requires OrderInv(arrived, granted, Some(x), q)
    ensures OrderInv(arrived, granted + [x.co], None, q)
  {
  }

  // Nobody enters, leaves or becomes heir by another step of the loop, unless it pops the heir.
  lemma OtherKeepsMutex(m: Mutex, e: Event)
    requires MutexInv(m) && Enabled'(m, Other(e))
    ensures MutexInv(LoopStep(m, e))
    ensures !(e.EDrain? && On(m.loop.active[0], m.cond)) ==>
              LoopStep(m, e) == m.(loop := Apply(m.loop, e)) && Queue(Apply(m.loop, e), m.cond) == Queue(m.loop, m.cond)
  {
    if e.EDrain? {
      if On(m.loop.active[0], m.cond) {
        HeirEnters(m);
      } else {
        DrainElsewhere(m.loop, m.cond);
        StepKeepsInv(m.loop, EDrain);
      }
    } else {
      StepKeepsInv(m.loop, e);
      StepElsewhere(m.loop, e, m.cond);
    }
  }

  lemma LockKeepsMutex(m: Mutex, x: Item, now: nat)
    requires MutexInv(m) && Enabled'(m, Lock(x, now))
    ensures MutexInv(Locked(m, x, now))
    ensures x.co in Locked(m, x, now).inside <==> !Busy(m.inside, m.heir)
  {
    if m.cnt > 0 {
      CondWaitKeepsInv(m.loop, x, now);
      OrderAfterQueueing(m.arrived, m.granted, m.heir, Queue(m.loop, m.cond), x);
    }
  }

  lemma OrderAfterQueueing(arrived: seq<nat>, granted: seq<nat>, heir: Option<Item>, q: seq<Item>, x: Item)
    requires OrderInv(arrived, granted, heir, q)
    ensures OrderInv(arrived + [x.co], granted, heir, q + [x])
  {
    assert Coroutines(q + [x]) == Coroutines(q) + [x.co];
  }

  lemma OrderAfterSignal(arrived: seq<nat>, granted: seq<nat>, q: seq<Item>)
    requires OrderInv(arrived, granted, None, q) && q != []
    ensures OrderInv(arrived, granted, Some(q[0]), q[1..])
  {
    assert Coroutines(q) == [q[0].co] + Coroutines(q[1..]);
  }

  // What the signal of CoUnLock does to the mutex's waits.
  lemma SignalHere(s: Loop, cond: nat)
    requires EventLoop.Inv(s) && Queue(s, cond) != []
    ensures var q, s' := Queue(s, cond), Signal(s, cond);
            && Queue(s', cond) == q[1..] && SameBut(s'.active, s.active, q[0]) && On(q[0], cond) && s'.used == s.used
  {
    var q := Queue(s, cond);
    SignalMoves(s, cond);
    assert QueueInv(s.queues[cond], cond, s.waiting);
    assert q[0] in q;
  }

  // The first in the queue becomes the heir, active but not yet inside; with no queue the mutex is free.
  lemma UnlockKeepsMutex(m: Mutex, co: nat)
    requires MutexInv(m) && co in m.inside
    ensures MutexInv(Unlocked(m, co))
    ensures var q, m' := Queue(m.loop, m.cond), Unlocked(m, co);
            && m'.inside == {} && m'.granted == m.granted && m'.cnt == |q|
            && (q == [] ==> m'.heir == None && m'.loop == m.loop)
            && (q != [] ==> m'.heir == Some(q[0]) && q[0] in m'.loop.active && Queue(m'.loop, m.cond) == q[1..])
  {
    if Queue(m.loop, m.cond) != [] {
      SignalKeepsInv(m.loop, m.cond);
      SignalHere(m.loop, m.cond);
      HandedKeepsMutex(m, co, Signal(m.loop, m.cond));
    }
  }

  lemma HandedKeepsMutex(m: Mutex, co: nat, s': Loop)
    requires MutexInv(m) && co in m.inside && EventLoop.Inv(s') && s'.used == m.loop.used
    requires var q := Queue(m.loop, m.cond);
             q != [] && Queue(s', m.cond) == q[1..] && SameBut(s'.active, m.loop.active, q[0]) && On(q[0], m.cond)
    ensures MutexInv(m.(cnt := m.cnt - 1, inside := m.inside - {co}, loop := s',
                        heir := Some(Queue(m.loop, m.cond)[0])))
  {
    OrderAfterSignal(m.arrived, m.granted, Queue(m.loop, m.cond));
  }

  // ---- Whole runs ---------------------------------------------------------------------------

  ghost predicate LegalRun(m: Mutex, ts: seq<Step>)
    decreases |ts|
  {
    ts != [] ==> |m.loop.wheel.slots| > 0 && Enabled'(m, ts[0]) && LegalRun(Next(m, ts[0]), ts[1..])
  }

  ghost function RunOf(m: Mutex, ts: seq<Step>): Mutex
    requires LegalRun(m, ts)
    decreases |ts|
  {
    if ts == [] then m else RunOf(Next(m, ts[0]), ts[1..])
  }

  lemma NextKeepsInv(m: Mutex, t: Step)
    requires MutexInv(m) && Enabled'(m, t)
    ensures MutexInv(Next(m, t))
  {
    match t
    case Lock(x, now) => LockKeepsMutex(m, x, now);
    case Unlock(co) => UnlockKeepsMutex(m, co);
    case Other(e) => OtherKeepsMutex(m, e);
  }

  lemma {:induction false} RunKeepsMutex(m: Mutex, ts: seq<Step>)
    requires MutexInv(m) && LegalRun(m, ts)
    ensures MutexInv(RunOf(m, ts))
    decreases |ts|
  {
    if ts != [] {
      NextKeepsInv(m, ts[0]);
      RunKeepsMutex(Next(m, ts[0]), ts[1..]);
    }
  }

  // What a step tells by itself: who calls CoLock, and whose CoLock returns, because the caller does not
  // wait or because its wait is resumed.
  function Callers(t: Step): seq<nat> {
    if t.Lock? then [t.x.co] else []
  }

  function Returns(m: Mutex, t: Step): seq<nat>
    requires |m.loop.wheel.slots| > 0 && Enabled'(m, t)
  {
    match t
    case Lock(x, _) => if Waits(Next(m, t).loop, x) then [] else [x.co]
    case Unlock(_) => []
    case Other(e) =>
      if e.EDrain? && On(m.loop.active[0], m.cond) && Drain(m.loop).resumed != m.loop.resumed then
        [m.loop.active[0].co]
      else []
  }

  // Who is between the return of CoLock and CoUnLock after one more step.
  function Holding(held: set<nat>, m: Mutex, t: Step): set<nat>
    requires |m.loop.wheel.slots| > 0 && Enabled'(m, t)
  {
    if t.Unlock? then held - {t.co} else held + set co | co in Returns(m, t)
  }

  ghost function CallersIn(ts: seq<Step>): seq<nat> {
    if ts == [] then [] else Callers(ts[0]) + CallersIn(ts[1..])
  }

  ghost function ReturnsIn(m: Mutex, ts: seq<Step>): seq<nat>
    requires LegalRun(m, ts)
    decreases |ts|
  {
    if ts == [] then [] else Returns(m, ts[0]) + ReturnsIn(Next(m, ts[0]), ts[1..])
  }

  ghost function HoldingAfter(held: set<nat>, m: Mutex, ts: seq<Step>): set<nat>
    requires LegalRun(m, ts)
    decreases |ts|
  {
    if ts == [] then held else HoldingAfter(Holding(held, m, ts[0]), Next(m, ts[0]), ts[1..])
  }

  lemma LockIsTraced(m: Mutex, x: Item, now: nat)
    requires MutexInv(m) && Enabled'(m, Lock(x, now))
    ensures Waits(Locked(m, x, now).loop, x) <==> m.cnt > 0
  {
    assert !Waits(m.loop, x);
  }

  lemma StepIsTraced(m: Mutex, t: Step)
    requires MutexInv(m) && Enabled'(m, t)
    ensures var m' := Next(m, t);
            && m'.arrived == m.arrived + Callers(t) && m'.granted == m.granted + Returns(m, t)
            && m'.inside == Holding(m.inside, m, t)
  {
    match t
    case Lock(x, now) => LockIsTraced(m, x, now);
    case Unlock(_) =>
    case Other(e) => OtherIsTraced(m, e);
  }

  lemma OtherIsTraced(m: Mutex, e: Event)
    requires MutexInv(m) && Enabled'(m, Other(e))
    ensures var m', back := LoopStep(m, e), Returns(m, Other(e));
            m'.arrived == m.arrived && m'.granted == m.granted + back && m'.inside == m.inside + set co | co in back
  {
  }

  lemma {:induction false} RunIsTraced(m: Mutex, ts: seq<Step>)
    requires MutexInv(m) && LegalRun(m, ts)
    ensures var m' := RunOf(m, ts);
            && m'.arrived == m.arrived + CallersIn(ts) && m'.granted == m.granted + ReturnsIn(m, ts)
            && m'.inside == HoldingAfter(m.inside, m, ts)
    decreases |ts|
  {
    if ts != [] {
      var m1 := Next(m, ts[0]);
      StepIsTraced(m, ts[0]);
      NextKeepsInv(m, ts[0]);
      RunIsTraced(m1, ts[1..]);
      Regroup(m.arrived, Callers(ts[0]), CallersIn(ts[1..]));
      Regroup(m.granted, Returns(m, ts[0]), ReturnsIn(m1, ts[1..]));
    }
  }

  lemma Regroup(a: seq<nat>, b: seq<nat>, c: seq<nat>)
    ensures (a + b) + c == a + (b + c)
  {
  }

  // The same, read off the calls and returns of a run: at most one coroutine is between the return of
  // CoLock and CoUnLock, and CoLock returns to its callers in the order of the calls.
  lemma LocksReturnInOrder(size: nat, start: nat, cond: nat, ts: seq<Step>)
    requires 0 < size < 0x8000_0000 && 0 < start
    requires LegalRun(NewMutex(EventLoop.Init(size, start), cond), ts)
    ensures var m0 := NewMutex(EventLoop.Init(size, start), cond);
            && ReturnsIn(m0, ts) <= CallersIn(ts)
            && forall a, b | a in HoldingAfter({}, m0, ts) && b in HoldingAfter({}, m0, ts) :: a == b
  {
    var m0 := NewMutex(EventLoop.Init(size, start), cond);
    InitInv(size, start);
    assert MutexInv(m0);
    var m := RunOf(m0, ts);
    RunIsTraced(m0, ts);
    FromNothing(CallersIn(ts));
    FromNothing(ReturnsIn(m0, ts));
    MutualExclusionAndFifo(size, start, cond, ts, m);
    assert m.inside == HoldingAfter({}, m0, ts);
  }

  lemma FromNothing(a: seq<nat>)
    ensures [] + a == a
  {
  }

  // Mutual exclusion, first-come-first-served hand-off and the meaning of the counter, for every
  // interleaving of lockers, signals elsewhere, timeouts, events and drains.
  lemma MutualExclusionAndFifo(size: nat, start: nat, cond: nat, ts: seq<Step>, m: Mutex)
    requires 0 < size < 0x8000_0000 && 0 < start
    requires var m0 := NewMutex(EventLoop.Init(size, start), cond); LegalRun(m0, ts) && m == RunOf(m0, ts)
    ensures forall a, b | a in m.inside && b in m.inside :: a == b
    ensures m.heir.Some? ==> m.inside == {}
    ensures m.granted <= m.arrived && m.arrived == m.granted + Heir(m.heir) + Coroutines(Queue(m.loop, cond))
    ensures m.cnt == (if Busy(m.inside, m.heir) then 1 else 0) + |Queue(m.loop, cond)|
    ensures m.cnt > 0 <==> Busy(m.inside, m.heir)
  {
    var m0 := NewMutex(EventLoop.Init(size, start), cond);
    InitInv(size, start);
    assert MutexInv(m0);
    RunKeepsMutex(m0, ts);
    CondIsFixed(m0, ts);
    PrefixOfOrder(m.arrived, m.granted, m.heir, Queue(m.loop, cond));
  }

  lemma PrefixOfOrder(arrived: seq<nat>, granted: seq<nat>, heir: Option<Item>, q: seq<Item>)
    requires OrderInv(arrived, granted, heir, q)
    ensures granted <= arrived
  {
  }

  lemma {:induction false} CondIsFixed(m: Mutex, ts: seq<Step>)
    requires LegalRun(m, ts)
    ensures RunOf(m, ts).cond == m.cond
    decreases |ts|
  {
    if ts != [] {
      CondIsFixed(Next(m, ts[0]), ts[1..]);
    }
  }

  lemma LockedIs(m: Mutex, x: Item, now: nat)
    requires |m.loop.wheel.slots| > 0 && x.kind.Cond?
    ensures var m' := Locked(m, x, now);
            && m'.cond == m.cond && m'.cnt == m.cnt + 1
            && m'.loop == if m.cnt > 0 then CondWait(m.loop, x, now) else m.loop
  {
  }

  // ---- The code ---------------------------------------------------------------------------

  class ClsCoMutex {
    const ctx: C.CoEpollCtx
    const m_ptCondSignal: nat
    var m_iWaitItemCnt: int
    ghost var state: Mutex

    ghost predicate Valid()
      reads this, ctx, ctx.Footprint()
    {
      && ctx.Valid() && m_ptCondSignal < |ctx.queues.conds|
      && state.loop == ctx.loop && state.cond == m_ptCondSignal && state.cnt == m_iWaitItemCnt
    }

    // The condition has just been allocated.
    constructor (ctx: C.CoEpollCtx, cond: nat)
      requires ctx.Valid() && cond < |ctx.queues.conds|
      ensures Valid() && state == NewMutex(ctx.loop, cond) && this.ctx == ctx
    {
      this.ctx, m_ptCondSignal, m_iWaitItemCnt := ctx, cond, 0;
      state := NewMutex(ctx.loop, cond);
    }

    // The caller is suspended in x exactly if the count was positive.
    method CoLock(x: Item, now: nat) returns (suspended: bool)
      requires Valid() && x.kind == Cond(m_ptCondSignal, false) && x !in ctx.loop.used && 0 < now
      modifies this`m_iWaitItemCnt, this`state, ctx`loop, ctx.lists`nodes
      modifies ctx.lists.pTimeout`ullStart, ctx.lists.pTimeout`llStartIdx, ctx.lists.pTimeout`start
      modifies ctx.lists.pTimeout`wheel, ctx.lists.pTimeout`contents, ctx.lists.pTimeout`repr
      modifies ctx.lists.pTimeout.lists`head, ctx.lists.pTimeout.lists`tail, ctx.lists.pTimeout.lists`nodes
      modifies ctx.lists.nodes`pNext
      modifies ctx.queues`psis, ctx.queues`contents, ctx.queues`nodes
      modifies ctx.queues.conds`head, ctx.queues.conds`tail, ctx.queues.conds`nodes, ctx.queues.nodes`pNext
      ensures Valid() && state == Locked(old(state), x, now) && (suspended <==> old(m_iWaitItemCnt) > 0)
      ensures m_iWaitItemCnt == old(m_iWaitItemCnt) + 1
    {
      ghost var next := Locked(state, x, now);
      LockedIs(state, x, now);
      suspended := CountAndWait(x, now);
      Follow(next);
    }

    // The increment, and the call of co_cond_timedwait, if it is made, up to its yield.
    method CountAndWait(x: Item, now: nat) returns (waits: bool)
      requires ctx.Valid() && m_ptCondSignal < |ctx.queues.conds|
      requires x.kind == Cond(m_ptCondSignal, false) && x !in ctx.loop.used && 0 < now
      modifies this`m_iWaitItemCnt, ctx`loop, ctx.lists`nodes
      modifies ctx.lists.pTimeout`ullStart, ctx.lists.pTimeout`llStartIdx, ctx.lists.pTimeout`start
      modifies ctx.lists.pTimeout`wheel, ctx.lists.pTimeout`contents, ctx.lists.pTimeout`repr
      modifies ctx.lists.pTimeout.lists`head, ctx.lists.pTimeout.lists`tail, ctx.lists.pTimeout.lists`nodes
      modifies ctx.lists.nodes`pNext
      modifies ctx.queues`psis, ctx.queues`contents, ctx.queues`nodes
      modifies ctx.queues.conds`head, ctx.queues.conds`tail, ctx.queues.conds`nodes, ctx.queues.nodes`pNext
      ensures m_iWaitItemCnt == old(m_iWaitItemCnt) + 1 && (waits <==> old(m_iWaitItemCnt) > 0)
      ensures ctx.Valid() && ctx.loop == if waits then CondWait(old(ctx.loop), x, now) else old(ctx.loop)
    {
      waits := m_iWaitItemCnt > 0;
      Count(1);
      if waits {
        var _ := ctx.CondTimedWait(x, now);
      }
    }

    // m_iWaitItemCnt++ and m_iWaitItemCnt--
    method Count(d: int)
      requires ctx.Valid()
      modifies this`m_iWaitItemCnt
      ensures ctx.Valid() && m_iWaitItemCnt == old(m_iWaitItemCnt) + d
    {
      m_iWaitItemCnt := m_iWaitItemCnt + d;
    }

    // The ghost machine takes the same step.
    ghost method Follow(next: Mutex)
      requires ctx.Valid() && m_ptCondSignal < |ctx.queues.conds|
      requires next.loop == ctx.loop && next.cond == m_ptCondSignal && next.cnt == m_iWaitItemCnt
      modifies this`state
      ensures Valid() && state == next
    {
      state := next;
    }

    method CoUnLock(ghost co: nat)
      requires Valid()
      modifies this`m_iWaitItemCnt, this`state, ctx`loop
      modifies ctx.queues`contents, ctx.queues.conds`head, ctx.queues.conds`tail, ctx.queues.conds`nodes
      modifies ctx.queues.nodes`pPrev, ctx.queues.nodes`pNext, ctx.queues.nodes`pLink
      modifies ctx.lists.pTimeout`wheel, ctx.lists.pTimeout`contents, ctx.lists.pTimeout`repr
      modifies ctx.lists.pTimeout.lists`head, ctx.lists.pTimeout.lists`tail, ctx.lists.pTimeout.lists`nodes
      modifies ctx.lists.pstActiveList`head, ctx.lists.pstActiveList`tail, ctx.lists.pstActiveList`nodes
      modifies ctx.lists.nodes`pPrev, ctx.lists.nodes`pNext, ctx.lists.nodes`pLink
      ensures Valid() && state == Unlocked(old(state), co) && m_iWaitItemCnt == old(m_iWaitItemCnt) - 1
    {
      ghost var next := Unlocked(state, co);
      Count(-1);
      SignalNext(next);
    }

    // The call of co_cond_signal.
    method SignalNext(ghost next: Mutex)
      requires ctx.Valid() && m_ptCondSignal < |ctx.queues.conds|
      requires next.loop == Signal(ctx.loop, m_ptCondSignal)
      requires next.cond == m_ptCondSignal && next.cnt == m_iWaitItemCnt
      modifies this`state, ctx`loop
      modifies ctx.queues`contents, ctx.queues.conds`head, ctx.queues.conds`tail, ctx.queues.conds`nodes
      modifies ctx.queues.nodes`pPrev, ctx.queues.nodes`pNext, ctx.queues.nodes`pLink
      modifies ctx.lists.pTimeout`wheel, ctx.lists.pTimeout`contents, ctx.lists.pTimeout`repr
      modifies ctx.lists.pTimeout.lists`head, ctx.lists.pTimeout.lists`tail, ctx.lists.pTimeout.lists`nodes
      modifies ctx.lists.pstActiveList`head, ctx.lists.pstActiveList`tail, ctx.lists.pstActiveList`nodes
      modifies ctx.lists.nodes`pPrev, ctx.lists.nodes`pNext, ctx.lists.nodes`pLink
      ensures Valid() && state == next
    {
      var found := ctx.CondSignal(m_ptCondSignal);
      Follow(next);
    }
  }
}

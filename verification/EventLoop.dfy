/** The event loop of libco/co_routine.cpp: epoll events, timeouts and condition signals move the
    items of suspended coroutines to the active list, and the drain loop resumes them. A resumed
    coroutine may signal, broadcast or wait again before the next item is popped, so the state
    machine lets these steps come in any order. */
module EventLoop {
  import opened Sequences
  import opened TimeoutItem
  import T = TimingWheel

  datatype Phase = Idle | Draining(now: nat)

  datatype Loop = Loop(
    wheel: T.Wheel,                // pTimeout
    active: seq<Item>,             // pstActiveList
    queues: map<nat, seq<Item>>,   // the condition variables
    flagged: set<Item>,            // items with bTimeout set
    detached: set<Item>,           // poll waits with iAllEventDetach set
    phase: Phase,
    waiting: map<nat, Item>,       // the wait in which a coroutine is suspended
    // History, read by the properties only.
    used: set<Item>,               // every wait that was entered
    resumed: seq<Item>,            // the calls of pfnProcess, in order
    due: set<Item>,                // what the current drain owes a resume
    filedAt: map<Item, nat>,       // the wheel's origin when the item was first filed
    tick: map<Item, int>,          // the tick at which its slot is reached
    refiles: map<Item, nat>        // how often the drain put the item back
  )

  function Init(size: nat, now: nat): Loop
    requires 0 < size < 0x8000_0000 && 0 < now
  {
    Loop(T.Wheel(seq(size, _ => []), now, {}), [], map[], {}, {}, Idle, map[], {}, [], {}, map[], map[], map[])
  }

  function Queue(s: Loop, c: nat): seq<Item> {
    QueueIn(s.queues, c)
  }

  function QueueIn(queues: map<nat, seq<Item>>, c: nat): seq<Item> {
    if c in queues then queues[c] else []
  }

  predicate Waits(s: Loop, x: Item) {
    WaitsIn(s.waiting, x)
  }

  predicate WaitsIn(waiting: map<nat, Item>, x: Item) {
    x.co in waiting && waiting[x.co] == x
  }

  // The timeout item's own list membership: a wheel slot or the active list.
  function Linked(s: Loop): multiset<Item> {
    T.Pending(s.wheel) + multiset(s.active)
  }

  function Unlink(s: Loop, x: Item): Loop {
    s.(wheel := T.Remove(s.wheel, x), active := Drop(s.active, x))
  }

  // RemoveFromLink followed by AddTail on the active list.
  function Activate(s: Loop, x: Item): Loop {
    var s1 := Unlink(s, x);
    s1.(active := s1.active + [x])
  }

  // ---- The steps -------------------------------------------------------------------------

  // OnPollPreparePfn: only the first event of a poll wait moves its item.
  function EventReady(s: Loop, x: Item): Loop {
    if x in s.detached then s else Activate(s.(detached := s.detached + {x}), x)
  }

  // Lines 825-836: take what is due, flag it, and hang it behind the active items.
  function Take(s: Loop, now: nat): Loop
    requires |s.wheel.slots| > 0
  {
    var (wheel, taken) := T.TakeAllTimeout(s.wheel, now);
    var s1 := s.(wheel := wheel, active := s.active + taken,
                 flagged := s.flagged + (set x | x in taken), phase := Draining(now));
    s1.(due := set x | x in s1.active && !IsEarly(s1, x, now))
  }

  // The test of line 843.
  predicate IsEarly(s: Loop, x: Item, now: nat) {
    x in s.flagged && now < x.deadline
  }

  // One turn of the drain loop, lines 839-859.
  function Drain(s: Loop): Loop
    requires |s.wheel.slots| > 0 && s.phase.Draining? && s.active != []
  {
    var x, s1 := s.active[0], s.(active := s.active[1..]);
    var (wheel, ret) := T.AddTimeout(s1.wheel, x, s.phase.now);
    if IsEarly(s, x, s.phase.now) && ret == 0 then Refile(s1, x, wheel)
    else Process(if IsEarly(s, x, s.phase.now) then s1.(wheel := wheel) else s1, x)
  }

  function Refiles(refiles: map<Item, nat>, x: Item): nat {
    if x in refiles then refiles[x] else 0
  }

  // The item is back in the wheel and no longer counts as timed out.
  function Refile(s: Loop, x: Item, wheel: T.Wheel): Loop
    requires |s.wheel.slots| > 0
  {
    s.(wheel := wheel, flagged := s.flagged - {x}, tick := s.tick[x := T.FiledTick(s.wheel, x)],
       refiles := s.refiles[x := Refiles(s.refiles, x) + 1])
  }

  // pfnProcess resumes the coroutine, which first takes itself out of its condition's queue
  // (line 1172) and frees the item.
  function Process(s: Loop, x: Item): Loop {
    s.(resumed := s.resumed + [x], waiting := s.waiting - {x.co}, flagged := s.flagged - {x},
       queues := if x.kind.Cond? then s.queues[x.kind.cond := Drop(Queue(s, x.kind.cond), x)] else s.queues)
  }

  function EndDrain(s: Loop): Loop {
    s.(phase := Idle)
  }

  function Signal(s: Loop, c: nat): Loop {
    var q := Queue(s, c);
    if q == [] then s else Activate(s.(queues := s.queues[c := q[1..]]), q[0])
  }

  function Broadcast(s: Loop, c: nat): Loop
    decreases |Queue(s, c)|
  {
    if Queue(s, c) == [] then s else Broadcast(Signal(s, c), c)
  }

  function Enter(s: Loop, x: Item): Loop {
    s.(waiting := s.waiting[x.co := x], used := s.used + {x})
  }

  function FileItem(s: Loop, x: Item, now: nat): (r: (Loop, int))
    requires |s.wheel.slots| > 0
  {
    var (wheel, ret) := T.AddTimeout(s.wheel, x, now);
    if ret != 0 then (s.(wheel := wheel), ret)
    else (s.(wheel := wheel, filedAt := s.filedAt[x := wheel.ullStart],
             tick := s.tick[x := T.FiledTick(wheel, x)]), 0)
  }

  // co_cond_timedwait up to its yield; a deadline that cannot be filed ends the call at once.
  function CondWait(s: Loop, x: Item, now: nat): Loop
    requires |s.wheel.slots| > 0 && x.kind.Cond?
  {
    var (s1, ret) := if x.kind.timed then FileItem(s, x, now) else (s, 0);
    if ret != 0 then s1
    else Enter(s1.(queues := s1.queues[x.kind.cond := Queue(s1, x.kind.cond) + [x]]), x)
  }

  // co_poll_inner up to its yield.
  function PollWait(s: Loop, x: Item, now: nat): Loop
    requires |s.wheel.slots| > 0
  {
    var (s1, ret) := FileItem(s, x, now);
    if ret != 0 then s1 else Enter(s1, x)
  }

  datatype Event =
    | EEventReady(x: Item)
    | ETake(now: nat)
    | EDrain
    | EEndDrain
    | ESignal(c: nat)
    | EBroadcast(c: nat)
    | ECondWait(x: Item, now: nat)
    | EPollWait(x: Item, now: nat)

  // What the environment promises: the kernel reports only registered fds, the clock does not jump
  // past the range of an int between two turns, and a wait is a new item of a running coroutine.
  predicate Enabled(s: Loop, e: Event) {
    match e
    case EEventReady(x) => s.phase.Idle? && x.kind.Poll? && Waits(s, x)
    case ETake(now) => s.phase.Idle? && 0 < now && GapFits(s, now)
    case EDrain => s.phase.Draining? && s.active != []
    case EEndDrain => s.phase.Draining? && s.active == []
    case ESignal(_) => true
    case EBroadcast(_) => true
    case ECondWait(x, now) =>
      0 < now && x !in s.used && x.co !in s.waiting && x.kind.Cond? && (x.kind.timed ==> now < x.deadline)
    case EPollWait(x, now) => 0 < now && x !in s.used && x.co !in s.waiting && x.kind.Poll? && now < x.deadline
  }

  predicate GapFits(s: Loop, now: nat) {
    s.wheel.ullStart <= now ==> T.Faithful(now - s.wheel.ullStart, |s.wheel.slots|)
  }

  function Apply(s: Loop, e: Event): Loop
    requires |s.wheel.slots| > 0 && Enabled(s, e)
  {
    match e
    case EEventReady(x) => EventReady(s, x)
    case ETake(now) => Take(s, now)
    case EDrain => Drain(s)
    case EEndDrain => EndDrain(s)
    case ESignal(c) => Signal(s, c)
    case EBroadcast(c) => Broadcast(s, c)
    case ECondWait(x, now) => CondWait(s, x, now)
    case EPollWait(x, now) => PollWait(s, x, now)
  }

  // ---- The invariant ---------------------------------------------------------------------

  ghost predicate Inv(s: Loop) {
    && T.Valid(s.wheel) && 0 < s.wheel.ullStart
    && LinksInv(Linked(s), s.waiting)
    && QueuesInv(s.queues, s.waiting)
    && WaitInv(s.waiting, s.used, T.Pending(s.wheel), s.active, s.queues)
    && FlagInv(s.flagged, s.active, s.phase, s.wheel.ullStart, s.wheel.far, s.tick)
    && LogInv(s.resumed, s.used, s.waiting)
    && DueInv(s.phase, s.due, s.active, s.resumed, s.flagged)
    && T.NotBefore(s.wheel, s.tick)
    && RefileInv(|s.wheel.slots|, s.filedAt, s.tick, s.refiles, s.used)
  }

  // An item is in at most one slot or list, once, and only while its coroutine waits in it.
  ghost predicate LinksInv(linked: multiset<Item>, waiting: map<nat, Item>) {
    forall x :: linked[x] <= 1 && (linked[x] > 0 ==> WaitsIn(waiting, x))
  }

  ghost predicate QueuesInv(queues: map<nat, seq<Item>>, waiting: map<nat, Item>) {
    forall c | c in queues :: QueueInv(queues[c], c, waiting)
  }

  ghost predicate QueueInv(q: seq<Item>, c: nat, waiting: map<nat, Item>) {
    forall x :: multiset(q)[x] <= 1 && (x in q ==> WaitsIn(waiting, x) && x.kind.Cond? && x.kind.cond == c)
  }

  // Nobody waits unfindably: the item can be timed out, is about to be popped, or can be signalled.
  ghost predicate WaitInv(waiting: map<nat, Item>, used: set<Item>, pending: multiset<Item>, active: seq<Item>,
                          queues: map<nat, seq<Item>>)
  {
    forall co | co in waiting ::
      waiting[co].co == co && waiting[co] in used && Findable(waiting[co], pending, active, queues)
  }

  ghost predicate Findable(x: Item, pending: multiset<Item>, active: seq<Item>, queues: map<nat, seq<Item>>) {
    if Untimed(x) then
      x !in pending && (x in active <==> x !in QueueIn(queues, x.kind.cond))
    else
      x in pending || x in active
  }

  predicate Untimed(x: Item) {
    x.kind.Cond? && !x.kind.timed
  }

  // bTimeout is set only during a drain, on active items taken at the drain's `now`.
  ghost predicate FlagInv(flagged: set<Item>, active: seq<Item>, phase: Phase, ullStart: nat, far: set<Item>,
                          tick: map<Item, int>)
  {
    forall x | x in flagged ::
      && x in active && !Untimed(x)
      && phase.Draining? && ullStart == phase.now
      && (x !in far ==> x.deadline <= phase.now)
      && x in tick && tick[x] <= phase.now
  }

  ghost predicate LogInv(resumed: seq<Item>, used: set<Item>, waiting: map<nat, Item>) {
    && (forall x :: multiset(resumed)[x] <= 1 && (x in resumed ==> x in used && !WaitsIn(waiting, x)))
    && forall x | x in used :: x in resumed || WaitsIn(waiting, x)
  }

  // What a drain owes is still active or already resumed, and the test of line 843 will not spare it.
  ghost predicate DueInv(phase: Phase, due: set<Item>, active: seq<Item>, resumed: seq<Item>, flagged: set<Item>) {
    phase.Draining? ==> forall x | x in due ::
      (x in active || x in resumed) && !(x in flagged && phase.now < x.deadline)
  }

  // An item that was put back r times has been through r full turns of the wheel.
  ghost predicate RefileInv(size: nat, filedAt: map<Item, nat>, tick: map<Item, int>, refiles: map<Item, nat>,
                            used: set<Item>)
  {
    && tick.Keys == filedAt.Keys && refiles.Keys <= filedAt.Keys && filedAt.Keys <= used
    && forall x | x in filedAt :: TurnsDone(size, filedAt[x], tick[x], Refiles(refiles, x), x.deadline)
  }

  ghost predicate TurnsDone(size: nat, filedAt: nat, tick: int, r: nat, deadline: nat) {
    && (tick == deadline || filedAt + (r + 1) * (size - 1) <= tick)
    && (r > 0 ==> r * (size - 1) < deadline - filedAt)
  }

  // ---- Every step keeps the invariant ---------------------------------------------------

  lemma InitInv(size: nat, now: nat)
    requires 0 < size < 0x8000_0000 && 0 < now
    ensures Inv(Init(size, now))
  {
    FlattenNothing<Item>(Init(size, now).wheel.slots);
  }

  // What moving an item to the tail of the active list changes, and what it does not.
  lemma ActivateFacts(s: Loop, x: Item)
    requires T.Valid(s.wheel) && T.NotBefore(s.wheel, s.tick)
    ensures var s' := Activate(s, x);
            && T.Valid(s'.wheel) && T.NotBefore(s'.wheel, s.tick)
            && T.Pending(s'.wheel) == T.Pending(s.wheel)[x := 0]
            && Linked(s') == Linked(s)[x := 1]
            && SameBut(s'.active, s.active, x)
  {
    T.RemoveKeepsValid(s.wheel, x);
    T.RemoveKeepsTicks(s.wheel, x, s.tick);
    DropMultiset(s.active, x);
    DropKeepsOthers(s.active, x);
    assert multiset(Activate(s, x).active) == multiset(Drop(s.active, x)) + multiset{x};
  }

  ghost predicate SameBut(active': seq<Item>, active: seq<Item>, x: Item) {
    forall y :: y in active' <==> y in active || y == x
  }

  lemma WaitAfterActivate(waiting: map<nat, Item>, used: set<Item>, pending: multiset<Item>, active: seq<Item>,
                          queues: map<nat, seq<Item>>, active': seq<Item>, x: Item)
    requires WaitInv(waiting, used, pending, active, queues)
    requires SameBut(active', active, x) && !Untimed(x)
    ensures WaitInv(waiting, used, pending[x := 0], active', queues)
  {
    forall co | co in waiting ensures Findable(waiting[co], pending[x := 0], active', queues) {
      assert Findable(waiting[co], pending, active, queues);
    }
  }

  lemma EventReadyKeepsInv(s: Loop, x: Item)
    requires Inv(s) && Enabled(s, EEventReady(x))
    ensures Inv(EventReady(s, x))
  {
    if x !in s.detached {
      var s1 := s.(detached := s.detached + {x});
      ActivateFacts(s1, x);
      WaitAfterActivate(s.waiting, s.used, T.Pending(s.wheel), s.active, s.queues, Activate(s1, x).active, x);
    }
  }

  lemma QueueAfterPop(q: seq<Item>, c: nat, waiting: map<nat, Item>)
    requires q != [] && QueueInv(q, c, waiting)
    ensures QueueInv(q[1..], c, waiting) && q[0] !in q[1..]
  {
    assert q == [q[0]] + q[1..];
    forall x ensures multiset(q[1..])[x] <= multiset(q)[x] && (x in q[1..] ==> x in q) {
    }
    assert multiset(q)[q[0]] == 1;
  }

  lemma WaitAfterSignal(waiting: map<nat, Item>, used: set<Item>, pending: multiset<Item>, active: seq<Item>,
                        queues: map<nat, seq<Item>>, active': seq<Item>, c: nat)
    requires WaitInv(waiting, used, pending, active, queues)
    requires QueueIn(queues, c) != [] && QueueInv(queues[c], c, waiting)
    requires SameBut(active', active, queues[c][0])
    ensures WaitInv(waiting, used, pending[queues[c][0] := 0], active', queues[c := queues[c][1..]])
  {
    var q, x, queues' := queues[c], queues[c][0], queues[c := queues[c][1..]];
    QueueAfterPop(q, c, waiting);
    assert q == [x] + q[1..];
    forall co | co in waiting ensures Findable(waiting[co], pending[x := 0], active', queues') {
      assert Findable(waiting[co], pending, active, queues);
    }
  }

  // A signal takes the first waiter off its queue and from wherever its item is linked, and puts it
  // behind the active items.
  lemma SignalMoves(s: Loop, c: nat)
    requires Inv(s) && Queue(s, c) != []
    ensures var q, s' := Queue(s, c), Signal(s, c);
            && s' == s.(wheel := s'.wheel, active := s'.active, queues := s.queues[c := q[1..]])
            && Queue(s', c) == q[1..] && q[0] !in q[1..] && QueueInv(q[1..], c, s.waiting) && WaitsIn(s.waiting, q[0])
            && T.Valid(s'.wheel) && T.NotBefore(s'.wheel, s.tick) && s'.wheel.ullStart == s.wheel.ullStart
            && |s'.wheel.slots| == |s.wheel.slots| && s'.wheel.far == s.wheel.far
            && T.Pending(s'.wheel) == T.Pending(s.wheel)[q[0] := 0]
            && Linked(s') == Linked(s)[q[0] := 1]
            && s'.active == Drop(s.active, q[0]) + [q[0]] && SameBut(s'.active, s.active, q[0])
  {
    var q := Queue(s, c);
    assert QueueInv(q, c, s.waiting) && q[0] in q;
    QueueAfterPop(q, c, s.waiting);
    ActivateFacts(s.(queues := s.queues[c := q[1..]]), q[0]);
  }

  lemma QueuesAfterSignal(queues: map<nat, seq<Item>>, waiting: map<nat, Item>, c: nat, q: seq<Item>)
    requires QueuesInv(queues, waiting) && QueueInv(q, c, waiting)
    ensures QueuesInv(queues[c := q], waiting)
  {
  }

  lemma FlagsAfterSignal(flagged: set<Item>, active: seq<Item>, phase: Phase, ullStart: nat, far: set<Item>,
                         tick: map<Item, int>, active': seq<Item>, x: Item)
    requires FlagInv(flagged, active, phase, ullStart, far, tick) && SameBut(active', active, x)
    ensures FlagInv(flagged, active', phase, ullStart, far, tick)
  {
  }

  lemma DueAfterSignal(phase: Phase, due: set<Item>, active: seq<Item>, resumed: seq<Item>, flagged: set<Item>,
                       active': seq<Item>, x: Item)
    requires DueInv(phase, due, active, resumed, flagged) && SameBut(active', active, x)
    ensures DueInv(phase, due, active', resumed, flagged)
  {
  }

  lemma LinksAfterSignal(linked: multiset<Item>, waiting: map<nat, Item>, x: Item)
    requires LinksInv(linked, waiting) && WaitsIn(waiting, x)
    ensures LinksInv(linked[x := 1], waiting)
  {
  }

  lemma SignalKeepsInv(s: Loop, c: nat)
    requires Inv(s)
    ensures Inv(Signal(s, c))
    ensures |Queue(Signal(s, c), c)| == if Queue(s, c) == [] then 0 else |Queue(s, c)| - 1
  {
    var q, s' := Queue(s, c), Signal(s, c);
    if q != [] {
      SignalMoves(s, c);
      LinksAfterSignal(Linked(s), s.waiting, q[0]);
      QueuesAfterSignal(s.queues, s.waiting, c, q[1..]);
      assert QueueInv(q, c, s.waiting);
      WaitAfterSignal(s.waiting, s.used, T.Pending(s.wheel), s.active, s.queues, s'.active, c);
      FlagsAfterSignal(s.flagged, s.active, s.phase, s.wheel.ullStart, s.wheel.far, s.tick, s'.active, q[0]);
      DueAfterSignal(s.phase, s.due, s.active, s.resumed, s.flagged, s'.active, q[0]);
    }
  }

  lemma {:induction false} BroadcastKeepsInv(s: Loop, c: nat)
    requires Inv(s)
    ensures Inv(Broadcast(s, c)) && Queue(Broadcast(s, c), c) == []
    decreases |Queue(s, c)|
  {
    if Queue(s, c) != [] {
      SignalKeepsInv(s, c);
      BroadcastKeepsInv(Signal(s, c), c);
    }
  }

  // Every item of q is active now and out of the wheel, and nobody else has moved.
  ghost predicate AllMoved(q: seq<Item>, active: seq<Item>, pending: multiset<Item>, active': seq<Item>,
                           pending': multiset<Item>)
  {
    && (forall x :: x in active' <==> x in active || x in q)
    && (forall x :: pending'[x] == if x in q then 0 else pending[x])
  }

  lemma OneMoreMoved(q: seq<Item>, active: seq<Item>, pending: multiset<Item>, active1: seq<Item>,
                     active': seq<Item>, pending': multiset<Item>)
    requires q != [] && SameBut(active1, active, q[0])
    requires AllMoved(q[1..], active1, pending[q[0] := 0], active', pending')
    ensures AllMoved(q, active, pending, active', pending')
  {
    assert q == [q[0]] + q[1..];
  }

  lemma {:induction false} BroadcastMoves(s: Loop, c: nat)
    requires Inv(s)
    ensures var s' := Broadcast(s, c);
            Queue(s', c) == [] && AllMoved(Queue(s, c), s.active, T.Pending(s.wheel), s'.active, T.Pending(s'.wheel))
    decreases |Queue(s, c)|
  {
    if Queue(s, c) != [] {
      var s1, s' := Signal(s, c), Broadcast(s, c);
      SignalMoves(s, c);
      SignalKeepsInv(s, c);
      BroadcastMoves(s1, c);
      OneMoreMoved(Queue(s, c), s.active, T.Pending(s.wheel), s1.active, s'.active, T.Pending(s'.wheel));
    }
  }

  // What the take of a faithful gap moves into the active list.
  lemma TakeFacts(s: Loop, now: nat)
    requires Inv(s) && Enabled(s, ETake(now))
    ensures var (w, taken) := T.TakeAllTimeout(s.wheel, now);
            && T.Valid(w) && 0 < w.ullStart && w.far == s.wheel.far && T.NotBefore(w, s.tick)
            && |w.slots| == |s.wheel.slots|
            && T.Pending(s.wheel) == multiset(taken) + T.Pending(w)
            && forall x | x in taken :: T.Reached(s.wheel, x, now, s.tick) && w.ullStart == now && !Untimed(x)
  {
    T.TakeKeepsAll(s.wheel, now, s.tick);
    forall x | x in T.TakeAllTimeout(s.wheel, now).1 ensures !Untimed(x) {
      assert T.Reached(s.wheel, x, now, s.tick);
      PendingIsTimed(s, x);
    }
  }

  lemma PendingIsTimed(s: Loop, x: Item)
    requires Inv(s) && x in T.Pending(s.wheel)
    ensures !Untimed(x) && Waits(s, x)
  {
    assert Linked(s)[x] > 0;
    assert Findable(s.waiting[x.co], T.Pending(s.wheel), s.active, s.queues);
  }

  lemma WaitAfterTake(waiting: map<nat, Item>, used: set<Item>, pending: multiset<Item>, active: seq<Item>,
                      queues: map<nat, seq<Item>>, pending': multiset<Item>, taken: seq<Item>)
    requires WaitInv(waiting, used, pending, active, queues) && pending == multiset(taken) + pending'
    ensures WaitInv(waiting, used, pending', active + taken, queues)
  {
    forall co | co in waiting ensures Findable(waiting[co], pending', active + taken, queues) {
      var x := waiting[co];
      assert Findable(x, pending, active, queues);
      assert x in taken <==> x in multiset(taken);
    }
  }

  lemma TakeKeepsInv(s: Loop, now: nat)
    requires Inv(s) && Enabled(s, ETake(now))
    ensures Inv(Take(s, now))
  {
    TakeFacts(s, now);
    var (w, taken) := T.TakeAllTimeout(s.wheel, now);
    var s' := Take(s, now);
    assert s.flagged == {} by {
      if x :| x in s.flagged {
        assert false;
      }
    }
    assert Linked(s') == Linked(s) by {
      assert multiset(s.active + taken) == multiset(s.active) + multiset(taken);
    }
    WaitAfterTake(s.waiting, s.used, T.Pending(s.wheel), s.active, s.queues, T.Pending(w), taken);
  }

  // ---- The drain loop ---------------------------------------------------------------------

  // The item that is popped: linked nowhere else, and waited for.
  lemma HeadFacts(s: Loop)
    requires Inv(s) && s.active != []
    ensures var x, rest := s.active[0], s.active[1..];
            && Waits(s, x) && x in s.used
            && x !in rest && x !in T.Pending(s.wheel)
            && multiset(s.active) == multiset{x} + multiset(rest)
            && (forall y :: y in s.active <==> y in rest || y == x)
  {
    var x, rest := s.active[0], s.active[1..];
    assert s.active == [x] + rest;
    assert Linked(s)[x] == T.Pending(s.wheel)[x] + 1 + multiset(rest)[x];
    assert s.waiting[x.co] == x;
  }

  // The call of AddTimeout on line 845 cannot fail, and it leaves the item a later slot.
  lemma RefileFacts(s: Loop)
    requires Inv(s) && Enabled(s, EDrain) && IsEarly(s, s.active[0], s.phase.now)
    ensures var x := s.active[0];
            var (w, ret) := T.AddTimeout(s.wheel, x, s.phase.now);
            && ret == 0 && Drain(s) == Refile(s.(active := s.active[1..]), x, w)
            && T.Valid(w) && w.ullStart == s.wheel.ullStart && |w.slots| == |s.wheel.slots|
            && T.Pending(w) == T.Pending(s.wheel) + multiset{x}
            && T.NotBefore(w, s.tick[x := T.FiledTick(s.wheel, x)])
            && x in s.wheel.far && forall y | y != x :: y in w.far <==> y in s.wheel.far
  {
    var x := s.active[0];
    HeadFacts(s);
    T.AddKeepsAll(s.wheel, x, s.phase.now, s.tick);
  }

  lemma AnotherTurn(size: nat, filedAt: nat, tick: int, r: nat, deadline: nat, now: nat)
    requires TurnsDone(size, filedAt, tick, r, deadline) && tick <= now < deadline && 0 < size
    ensures TurnsDone(size, filedAt, if deadline - now >= size then now + size - 1 else deadline, r + 1, deadline)
  {
    assert (r + 2) * (size - 1) == (r + 1) * (size - 1) + (size - 1);
  }

  lemma RefileInvAfter(size: nat, filedAt: map<Item, nat>, tick: map<Item, int>, refiles: map<Item, nat>,
                       used: set<Item>, x: Item, now: nat, t: int)
    requires RefileInv(size, filedAt, tick, refiles, used) && 0 < size
    requires x in tick && tick[x] <= now < x.deadline
    requires t == if x.deadline - now >= size then now + size - 1 else x.deadline
    ensures RefileInv(size, filedAt, tick[x := t], refiles[x := Refiles(refiles, x) + 1], used)
  {
    AnotherTurn(size, filedAt[x], tick[x], Refiles(refiles, x), x.deadline, now);
  }

  lemma WaitAfterRefile(waiting: map<nat, Item>, used: set<Item>, pending: multiset<Item>, active: seq<Item>,
                        queues: map<nat, seq<Item>>)
    requires WaitInv(waiting, used, pending, active, queues) && active != [] && !Untimed(active[0])
    ensures WaitInv(waiting, used, pending + multiset{active[0]}, active[1..], queues)
  {
    var x, rest := active[0], active[1..];
    assert active == [x] + rest;
    forall co | co in waiting ensures Findable(waiting[co], pending + multiset{x}, rest, queues) {
      assert Findable(waiting[co], pending, active, queues);
    }
  }

  lemma FlagsAfterPop(flagged: set<Item>, active: seq<Item>, phase: Phase, wheel: T.Wheel, far': set<Item>,
                      tick: map<Item, int>, t: int)
    requires active != [] && FlagInv(flagged, active, phase, wheel.ullStart, wheel.far, tick)
    requires forall y | y != active[0] :: y in far' <==> y in wheel.far
    ensures FlagInv(flagged - {active[0]}, active[1..], phase, wheel.ullStart, far', tick[active[0] := t])
  {
    assert active == [active[0]] + active[1..];
  }

  lemma DueAfterRefile(phase: Phase, due: set<Item>, active: seq<Item>, resumed: seq<Item>, flagged: set<Item>)
    requires active != [] && DueInv(phase, due, active, resumed, flagged) && phase.Draining?
    requires active[0] in flagged && phase.now < active[0].deadline
    ensures DueInv(phase, due, active[1..], resumed, flagged - {active[0]})
  {
    assert active == [active[0]] + active[1..];
  }

  lemma RefileKeepsInv(s: Loop)
    requires Inv(s) && Enabled(s, EDrain) && IsEarly(s, s.active[0], s.phase.now)
    ensures Inv(Drain(s)) && Drain(s).refiles == s.refiles[s.active[0] := Refiles(s.refiles, s.active[0]) + 1]
  {
    RefileFacts(s);
    RefiledInto(s, T.AddTimeout(s.wheel, s.active[0], s.phase.now).0);
  }

  lemma RefiledCounts(s: Loop, x: Item, w: T.Wheel)
    requires RefileInv(|s.wheel.slots|, s.filedAt, s.tick, s.refiles, s.used)
    requires 0 < |w.slots| == |s.wheel.slots| && x in s.tick && s.tick[x] <= s.wheel.ullStart < x.deadline
    ensures var s' := Refile(s, x, w);
            RefileInv(|s'.wheel.slots|, s'.filedAt, s'.tick, s'.refiles, s'.used)
  {
    RefileInvAfter(|w.slots|, s.filedAt, s.tick, s.refiles, s.used, x, s.wheel.ullStart, T.FiledTick(s.wheel, x));
  }

  lemma RefiledInto(s: Loop, w: T.Wheel)
    requires Inv(s) && Enabled(s, EDrain) && IsEarly(s, s.active[0], s.phase.now)
    requires T.Valid(w) && w.ullStart == s.wheel.ullStart && |w.slots| == |s.wheel.slots|
    requires T.Pending(w) == T.Pending(s.wheel) + multiset{s.active[0]}
    requires T.NotBefore(w, s.tick[s.active[0] := T.FiledTick(s.wheel, s.active[0])])
    requires forall y | y != s.active[0] :: y in w.far <==> y in s.wheel.far
    ensures Inv(Refile(s.(active := s.active[1..]), s.active[0], w))
  {
    var x := s.active[0];
    HeadFacts(s);
    assert LinksInv(T.Pending(w) + multiset(s.active[1..]), s.waiting) by {
      assert T.Pending(w) + multiset(s.active[1..]) == Linked(s);
    }
    RefiledCounts(s.(active := s.active[1..]), x, w);
    WaitAfterRefile(s.waiting, s.used, T.Pending(s.wheel), s.active, s.queues);
    assert WaitInv(s.waiting, s.used, T.Pending(w), s.active[1..], s.queues);
    FlagsAfterPop(s.flagged, s.active, s.phase, s.wheel, w.far, s.tick, T.FiledTick(s.wheel, x));
    DueAfterRefile(s.phase, s.due, s.active, s.resumed, s.flagged);
  }

  lemma QueuesAfterProcess(queues: map<nat, seq<Item>>, waiting: map<nat, Item>, x: Item)
    requires QueuesInv(queues, waiting) && WaitsIn(waiting, x)
    ensures x.kind.Cond? ==> QueuesInv(queues[x.kind.cond := Drop(QueueIn(queues, x.kind.cond), x)], waiting - {x.co})
    ensures !x.kind.Cond? ==> QueuesInv(queues, waiting - {x.co})
  {
    var queues' := if x.kind.Cond? then queues[x.kind.cond := Drop(QueueIn(queues, x.kind.cond), x)] else queues;
    forall c | c in queues' ensures QueueInv(queues'[c], c, waiting - {x.co}) {
      if x.kind.Cond? && c == x.kind.cond {
        DropMultiset(QueueIn(queues, c), x);
        DropKeepsOthers(QueueIn(queues, c), x);
        assert QueueInv(QueueIn(queues, c), c, waiting);
      } else {
        assert QueueInv(queues[c], c, waiting);
      }
    }
  }

  lemma WaitAfterProcess(waiting: map<nat, Item>, used: set<Item>, pending: multiset<Item>, active: seq<Item>,
                         queues: map<nat, seq<Item>>)
    requires WaitInv(waiting, used, pending, active, queues) && active != [] && WaitsIn(waiting, active[0])
    ensures var x := active[0];
            var queues' :=
              if x.kind.Cond? then queues[x.kind.cond := Drop(QueueIn(queues, x.kind.cond), x)] else queues;
            WaitInv(waiting - {x.co}, used, pending, active[1..], queues')
  {
    var x, rest := active[0], active[1..];
    assert active == [x] + rest;
    if x.kind.Cond? {
      DropKeepsOthers(QueueIn(queues, x.kind.cond), x);
    }
    forall co | co in waiting && co != x.co
      ensures Findable(waiting[co], pending, rest,
                       if x.kind.Cond? then queues[x.kind.cond := Drop(QueueIn(queues, x.kind.cond), x)] else queues)
    {
      assert Findable(waiting[co], pending, active, queues);
    }
  }

  lemma LogAfterProcess(resumed: seq<Item>, used: set<Item>, waiting: map<nat, Item>, x: Item)
    requires LogInv(resumed, used, waiting) && WaitsIn(waiting, x) && x in used
    ensures LogInv(resumed + [x], used, waiting - {x.co})
  {
    assert x !in resumed;
    forall y ensures multiset(resumed + [x])[y] <= 1 {
      assert multiset(resumed)[y] <= 1;
    }
  }

  lemma LinksAfterProcess(linked: multiset<Item>, waiting: map<nat, Item>, x: Item)
    requires LinksInv(linked + multiset{x}, waiting)
    ensures LinksInv(linked, waiting - {x.co})
  {
    forall y ensures linked[y] <= 1 && (linked[y] > 0 ==> WaitsIn(waiting - {x.co}, y)) {
      assert (linked + multiset{x})[y] == linked[y] + if x == y then 1 else 0;
      assert (linked + multiset{x})[x] <= 1;
    }
  }

  lemma ProcessKeepsInv(s: Loop)
    requires Inv(s) && Enabled(s, EDrain) && !IsEarly(s, s.active[0], s.phase.now)
    ensures Inv(Drain(s)) && Drain(s).resumed == s.resumed + [s.active[0]]
  {
    var x := s.active[0];
    HeadFacts(s);
    QueuesAfterProcess(s.queues, s.waiting, x);
    WaitAfterProcess(s.waiting, s.used, T.Pending(s.wheel), s.active, s.queues);
    LogAfterProcess(s.resumed, s.used, s.waiting, x);
    assert Linked(s) == T.Pending(s.wheel) + multiset(s.active[1..]) + multiset{x};
    LinksAfterProcess(T.Pending(s.wheel) + multiset(s.active[1..]), s.waiting, x);
  }

  // ---- Entering a wait ----------------------------------------------------------------------

  lemma WaiterIsUsed(s: Loop, x: Item)
    requires Inv(s) && Waits(s, x)
    ensures x in s.used
  {
  }

  lemma LinkedIsUsed(s: Loop, x: Item)
    requires Inv(s) && Linked(s)[x] > 0
    ensures Waits(s, x) && x in s.used
  {
  }

  lemma FreshFacts(s: Loop, x: Item)
    requires Inv(s) && x !in s.used
    ensures Linked(s)[x] == 0 && x !in T.Pending(s.wheel) && x !in s.active && x !in s.filedAt && x !in s.flagged
    ensures !Waits(s, x) && forall c :: x !in Queue(s, c)
  {
    if Waits(s, x) {
      WaiterIsUsed(s, x);
    }
    if Linked(s)[x] > 0 {
      LinkedIsUsed(s, x);
    }
    forall c ensures x !in Queue(s, c) {
      if c in s.queues {
        assert QueueInv(s.queues[c], c, s.waiting);
      }
    }
    assert x in s.active ==> x in multiset(s.active);
  }

  // A filing either fails and leaves everything as it was, or adds the item to one slot.
  lemma FileFacts(s: Loop, x: Item, now: nat)
    requires Inv(s) && x !in s.used && 0 < now < x.deadline
    ensures var (s1, ret) := FileItem(s, x, now);
            && (ret != 0 <==> now < s.wheel.ullStart)
            && (ret != 0 ==> s1 == s)
            && (ret == 0 ==>
                  && s1 == s.(wheel := s1.wheel, filedAt := s1.filedAt, tick := s1.tick)
                  && T.Valid(s1.wheel) && s1.wheel.ullStart == s.wheel.ullStart
                  && T.Pending(s1.wheel) == T.Pending(s.wheel) + multiset{x}
                  && T.NotBefore(s1.wheel, s1.tick)
                  && FlagInv(s.flagged, s.active, s.phase, s.wheel.ullStart, s1.wheel.far, s1.tick)
                  && RefileInv(|s1.wheel.slots|, s1.filedAt, s1.tick, s.refiles, s.used + {x}))
  {
    if s.wheel.ullStart <= now {
      FreshFacts(s, x);
      T.AddKeepsAll(s.wheel, x, now, s.tick);
      var w := T.AddTimeout(s.wheel, x, now).0;
      FlagsAfterFile(s.flagged, s.active, s.phase, s.wheel.ullStart, s.wheel.far, s.tick, x, w.far, T.FiledTick(w, x));
      RefilesAfterFile(|w.slots|, s.filedAt, s.tick, s.refiles, s.used, x, w.ullStart, T.FiledTick(w, x));
    }
  }

  lemma FlagsAfterFile(flagged: set<Item>, active: seq<Item>, phase: Phase, ullStart: nat, far: set<Item>,
                       tick: map<Item, int>, x: Item, far': set<Item>, t: int)
    requires FlagInv(flagged, active, phase, ullStart, far, tick) && x !in flagged
    requires forall y | y != x :: y in far' <==> y in far
    ensures FlagInv(flagged, active, phase, ullStart, far', tick[x := t])
  {
  }

  lemma RefilesAfterFile(size: nat, filedAt: map<Item, nat>, tick: map<Item, int>, refiles: map<Item, nat>,
                         used: set<Item>, x: Item, ullStart: nat, t: int)
    requires RefileInv(size, filedAt, tick, refiles, used) && x !in used && 0 < size
    requires t == if x.deadline - ullStart >= size then ullStart + size - 1 else x.deadline
    ensures RefileInv(size, filedAt[x := ullStart], tick[x := t], refiles, used + {x})
  {
    assert TurnsDone(size, ullStart, t, 0, x.deadline);
  }

  // Coroutine x.co is suspended in x from now on.
  lemma LogAfterEnter(resumed: seq<Item>, used: set<Item>, waiting: map<nat, Item>, x: Item)
    requires LogInv(resumed, used, waiting) && x !in used && x.co !in waiting
    ensures LogInv(resumed, used + {x}, waiting[x.co := x])
  {
    forall y ensures multiset(resumed)[y] <= 1 && (y in resumed ==> y in used && !WaitsIn(waiting[x.co := x], y)) {
      assert multiset(resumed)[y] <= 1;
    }
  }

  lemma WaitAfterEnter(waiting: map<nat, Item>, used: set<Item>, pending: multiset<Item>, active: seq<Item>,
                       queues: map<nat, seq<Item>>, x: Item, queues': map<nat, seq<Item>>)
    requires WaitInv(waiting, used, pending, active, queues) && x !in used && x.co !in waiting
    requires x !in pending && x !in active && forall c :: x !in QueueIn(queues, c)
    requires queues' == (if x.kind.Cond? then queues[x.kind.cond := QueueIn(queues, x.kind.cond) + [x]] else queues)
    ensures WaitInv(waiting[x.co := x], used + {x}, if Untimed(x) then pending else pending + multiset{x}, active,
                    queues')
  {
    var pending' := if Untimed(x) then pending else pending + multiset{x};
    forall co | co in waiting ensures Findable(waiting[co], pending', active, queues') {
      assert Findable(waiting[co], pending, active, queues);
    }
  }

  lemma QueuesAfterEnter(queues: map<nat, seq<Item>>, waiting: map<nat, Item>, x: Item)
    requires QueuesInv(queues, waiting) && x.co !in waiting && forall c :: x !in QueueIn(queues, c)
    ensures QueuesInv(queues, waiting[x.co := x])
    ensures x.kind.Cond? ==> QueuesInv(queues[x.kind.cond := QueueIn(queues, x.kind.cond) + [x]], waiting[x.co := x])
  {
    forall c | c in queues ensures QueueInv(queues[c], c, waiting[x.co := x]) {
      assert QueueInv(queues[c], c, waiting);
    }
    if x.kind.Cond? {
      var c := x.kind.cond;
      assert QueueInv(QueueIn(queues, c), c, waiting[x.co := x]);
      assert QueueInv(QueueIn(queues, c) + [x], c, waiting[x.co := x]);
    }
  }

  lemma LinksAfterEnter(linked: multiset<Item>, waiting: map<nat, Item>, x: Item)
    requires LinksInv(linked, waiting) && linked[x] == 0 && x.co !in waiting
    ensures LinksInv(linked, waiting[x.co := x]) && LinksInv(linked + multiset{x}, waiting[x.co := x])
  {
  }

  lemma CondWaitKeepsInv(s: Loop, x: Item, now: nat)
    requires Inv(s) && Enabled(s, ECondWait(x, now))
    ensures Inv(CondWait(s, x, now))
    ensures CondWait(s, x, now) == s || Waits(CondWait(s, x, now), x)
  {
    EnterFacts(s, x);
    if x.kind.timed {
      FileFacts(s, x, now);
    }
  }

  lemma PollWaitKeepsInv(s: Loop, x: Item, now: nat)
    requires Inv(s) && Enabled(s, EPollWait(x, now))
    ensures Inv(PollWait(s, x, now))
    ensures PollWait(s, x, now) == s || Waits(PollWait(s, x, now), x)
  {
    EnterFacts(s, x);
    FileFacts(s, x, now);
  }

  lemma EnterFacts(s: Loop, x: Item)
    requires Inv(s) && x !in s.used && x.co !in s.waiting
    ensures var waiting, used := s.waiting[x.co := x], s.used + {x};
            var queues := if x.kind.Cond? then s.queues[x.kind.cond := Queue(s, x.kind.cond) + [x]] else s.queues;
            && LogInv(s.resumed, used, waiting)
            && WaitInv(waiting, used, if Untimed(x) then T.Pending(s.wheel) else T.Pending(s.wheel) + multiset{x},
                       s.active, queues)
            && QueuesInv(queues, waiting)
            && LinksInv(Linked(s), waiting) && LinksInv(T.Pending(s.wheel) + multiset{x} + multiset(s.active), waiting)
  {
    FreshFacts(s, x);
    LogAfterEnter(s.resumed, s.used, s.waiting, x);
    QueuesAfterEnter(s.queues, s.waiting, x);
    LinksAfterEnter(Linked(s), s.waiting, x);
    assert Linked(s) + multiset{x} == T.Pending(s.wheel) + multiset{x} + multiset(s.active);
    WaitAfterEnter(s.waiting, s.used, T.Pending(s.wheel), s.active, s.queues, x,
                   if x.kind.Cond? then s.queues[x.kind.cond := Queue(s, x.kind.cond) + [x]] else s.queues);
  }

  // ---- Whole runs ---------------------------------------------------------------------------

  lemma StepKeepsInv(s: Loop, e: Event)
    requires Inv(s) && Enabled(s, e)
    ensures Inv(Apply(s, e))
  {
    match e
    case EEventReady(x) => EventReadyKeepsInv(s, x);
    case ETake(now) => TakeKeepsInv(s, now);
    case EDrain =>
      if IsEarly(s, s.active[0], s.phase.now) {
        RefileKeepsInv(s);
      } else {
        ProcessKeepsInv(s);
      }
    case EEndDrain =>
    case ESignal(c) => SignalKeepsInv(s, c);
    case EBroadcast(c) => BroadcastKeepsInv(s, c);
    case ECondWait(x, now) => CondWaitKeepsInv(s, x, now);
    case EPollWait(x, now) => PollWaitKeepsInv(s, x, now);
  }

  ghost predicate Legal(s: Loop, es: seq<Event>)
    decreases |es|
  {
    es != [] ==> |s.wheel.slots| > 0 && Enabled(s, es[0]) && Legal(Apply(s, es[0]), es[1..])
  }

  ghost function Run(s: Loop, es: seq<Event>): Loop
    requires Legal(s, es)
    decreases |es|
  {
    if es == [] then s else Run(Apply(s, es[0]), es[1..])
  }

  lemma {:induction false} RunKeepsInv(s: Loop, es: seq<Event>)
    requires Inv(s) && Legal(s, es)
    ensures Inv(Run(s, es))
    decreases |es|
  {
    if es != [] {
      StepKeepsInv(s, es[0]);
      RunKeepsInv(Apply(s, es[0]), es[1..]);
    }
  }

  // Every wait ends in exactly one resume: at most one so far, then in no list, and while there is
  // none the coroutine is suspended and can be found.
  lemma EveryWaitEndsInOneResume(size: nat, start: nat, es: seq<Event>, s: Loop, x: Item)
    requires 0 < size < 0x8000_0000 && 0 < start && Legal(Init(size, start), es) && s == Run(Init(size, start), es)
    ensures multiset(s.resumed)[x] <= 1
    ensures x in s.resumed ==> Linked(s)[x] == 0 && forall c :: x !in Queue(s, c)
    ensures x in s.used ==> (x in s.resumed <==> !Waits(s, x))
    ensures Waits(s, x) ==> x in s.used && Findable(x, T.Pending(s.wheel), s.active, s.queues)
  {
    InitInv(size, start);
    RunKeepsInv(Init(size, start), es);
    assert multiset(s.resumed)[x] <= 1;
    if !Waits(s, x) {
      NowhereUnlessWaiting(s, x);
    }
  }

  lemma NowhereUnlessWaiting(s: Loop, x: Item)
    requires Inv(s) && !Waits(s, x)
    ensures Linked(s)[x] == 0 && forall c :: x !in Queue(s, c)
  {
    assert Linked(s)[x] > 0 ==> WaitsIn(s.waiting, x);
    forall c ensures x !in Queue(s, c) {
      if c in s.queues {
        assert QueueInv(s.queues[c], c, s.waiting);
      }
    }
  }

  // A turn of the drain loop either resumes the head or puts it back, and it puts it back exactly
  // if it timed out before its deadline, which only happens to a clamped item.
  lemma DrainNeverEarly(s: Loop)
    requires Inv(s) && Enabled(s, EDrain)
    ensures var x := s.active[0];
            && Drain(s).resumed == (if IsEarly(s, x, s.phase.now) then s.resumed else s.resumed + [x])
            && (IsEarly(s, x, s.phase.now) ==> x in s.wheel.far && x in T.Pending(Drain(s).wheel))
  {
    if IsEarly(s, s.active[0], s.phase.now) {
      RefileFacts(s);
    }
  }

  // Over whole runs the number of times an item is put back is bounded by full turns of the wheel.
  lemma RefilesAreBounded(size: nat, start: nat, es: seq<Event>, s: Loop, x: Item)
    requires 0 < size < 0x8000_0000 && 0 < start && Legal(Init(size, start), es) && s == Run(Init(size, start), es)
    requires x in s.refiles && s.refiles[x] > 0
    ensures x in s.filedAt && s.refiles[x] * (|s.wheel.slots| - 1) < x.deadline - s.filedAt[x]
  {
    InitInv(size, start);
    RunKeepsInv(Init(size, start), es);
    BoundOf(s, x);
  }

  lemma BoundOf(s: Loop, x: Item)
    requires RefileInv(|s.wheel.slots|, s.filedAt, s.tick, s.refiles, s.used) && Refiles(s.refiles, x) > 0
    ensures x in s.filedAt && Refiles(s.refiles, x) * (|s.wheel.slots| - 1) < x.deadline - s.filedAt[x]
  {
    assert TurnsDone(|s.wheel.slots|, s.filedAt[x], s.tick[x], Refiles(s.refiles, x), x.deadline);
  }

  // ---- A drain settles what it owes ---------------------------------------------------------

  lemma ActiveAndTaken(s: Loop, now: nat, x: Item)
    requires Inv(s) && Enabled(s, ETake(now)) && s.wheel.ullStart <= now
    requires x in s.active && x in T.TakeAllTimeout(s.wheel, now).1
    ensures Linked(s)[x] >= 2
  {
    T.TakeConserves(s.wheel, now);
    assert x in multiset(T.TakeAllTimeout(s.wheel, now).1) && x in multiset(s.active);
  }

  lemma TakeOwes(s: Loop, now: nat, x: Item)
    requires Inv(s) && Enabled(s, ETake(now)) && s.wheel.ullStart <= now
    requires (x in Linked(s) && x.deadline <= now) || x in s.active
    ensures x in Take(s, now).due
  {
    if x in T.Pending(s.wheel) && x.deadline <= now {
      T.TakeIsExact(s.wheel, now, x);
    }
    assert s.flagged == {} by {
      if y :| y in s.flagged {
        assert false;
      }
    }
    assert Linked(s)[x] <= 1;
    if x in s.active && x in T.TakeAllTimeout(s.wheel, now).1 {
      ActiveAndTaken(s, now, x);
    }
  }

  predicate InsideDrain(e: Event) {
    !e.ETake? && !e.EEndDrain?
  }

  lemma {:induction false} BroadcastFrame(s: Loop, c: nat)
    ensures var s' := Broadcast(s, c);
            s' == s.(wheel := s'.wheel, active := s'.active, queues := s'.queues) && s'.wheel.far == s.wheel.far
    decreases |Queue(s, c)|
  {
    if Queue(s, c) != [] {
      BroadcastFrame(Signal(s, c), c);
    }
  }

  lemma StepKeepsDebt(s: Loop, e: Event)
    requires |s.wheel.slots| > 0 && Enabled(s, e) && s.phase.Draining? && InsideDrain(e)
    ensures Apply(s, e).due == s.due && Apply(s, e).phase == s.phase
  {
    if e.EBroadcast? {
      BroadcastFrame(s, e.c);
    }
  }

  lemma {:induction false} DrainKeepsDebt(s: Loop, es: seq<Event>)
    requires s.phase.Draining? && Legal(s, es) && forall i | 0 <= i < |es| :: InsideDrain(es[i])
    ensures Run(s, es).due == s.due && Run(s, es).phase == s.phase
    decreases |es|
  {
    if es != [] {
      StepKeepsDebt(s, es[0]);
      DrainKeepsDebt(Apply(s, es[0]), es[1..]);
    }
  }

  // However the resumed coroutines signal and wait in between: when the active list has run empty,
  // everything that was due when the drain began, or was already active, has been resumed.
  lemma DrainSettlesDebt(s: Loop, now: nat, es: seq<Event>, x: Item)
    requires Inv(s) && Enabled(s, ETake(now)) && s.wheel.ullStart <= now
    requires Legal(Take(s, now), es) && forall i | 0 <= i < |es| :: InsideDrain(es[i])
    requires Run(Take(s, now), es).active == []
    requires (x in Linked(s) && x.deadline <= now) || x in s.active
    ensures x in Run(Take(s, now), es).resumed
  {
    TakeOwes(s, now, x);
    TakeKeepsInv(s, now);
    RunKeepsInv(Take(s, now), es);
    DrainKeepsDebt(Take(s, now), es);
  }

  // ---- When a signal means a resume -----------------------------------------------------------

  ghost predicate InNoQueue(queues: map<nat, seq<Item>>, x: Item) {
    forall c | c in queues :: x !in queues[c]
  }

  lemma NotQueuedAfter(queues: map<nat, seq<Item>>, x: Item, c: nat, q: seq<Item>)
    requires InNoQueue(queues, x) && x !in q
    ensures InNoQueue(queues[c := q], x)
  {
  }

  // x has left its condition's queue for good. While it is active its fate is open and its flag does
  // not change; afterwards it has been resumed unless it was early.
  ghost predicate Settling(s: Loop, x: Item, now: nat, early: bool) {
    && s.phase == Draining(now) && x in s.used && InNoQueue(s.queues, x)
    && (x in s.active ==> x !in s.resumed && (IsEarly(s, x, now) <==> early))
    && (x !in s.active ==> (x in s.resumed <==> !early))
  }

  lemma SignalSettles(s: Loop, c: nat, x: Item, now: nat, early: bool)
    requires Inv(s) && Settling(s, x, now, early)
    ensures Settling(Signal(s, c), x, now, early)
  {
    var q := Queue(s, c);
    if q != [] {
      SignalMoves(s, c);
      assert q[0] in q && forall y | y in q[1..] :: y in q;
      NotQueuedAfter(s.queues, x, c, q[1..]);
    }
  }

  lemma {:induction false} BroadcastSettles(s: Loop, c: nat, x: Item, now: nat, early: bool)
    requires Inv(s) && Settling(s, x, now, early)
    ensures Settling(Broadcast(s, c), x, now, early)
    decreases |Queue(s, c)|
  {
    if Queue(s, c) != [] {
      SignalSettles(s, c, x, now, early);
      SignalKeepsInv(s, c);
      BroadcastSettles(Signal(s, c), c, x, now, early);
    }
  }

  // The fields of a drained state that matter to another item.
  lemma DrainFacts(s: Loop)
    requires |s.wheel.slots| > 0 && Enabled(s, EDrain)
    ensures var y, s' := s.active[0], Drain(s);
            && s'.phase == s.phase && s'.active == s.active[1..] && s'.flagged == s.flagged - {y} && s'.used == s.used
            && s'.queues == if s'.resumed != s.resumed && y.kind.Cond?
                            then s.queues[y.kind.cond := Drop(Queue(s, y.kind.cond), y)] else s.queues
  {
    assert s.resumed + [s.active[0]] != s.resumed;
  }

  lemma DrainSettles(s: Loop, x: Item, now: nat, early: bool)
    requires Inv(s) && Enabled(s, EDrain) && Settling(s, x, now, early)
    ensures Settling(Drain(s), x, now, early)
  {
    DrainFacts(s);
    DrainNeverEarly(s);
    HeadFacts(s);
    var y := s.active[0];
    if y.kind.Cond? {
      assert x !in Queue(s, y.kind.cond);
      DropKeepsOthers(Queue(s, y.kind.cond), y);
      NotQueuedAfter(s.queues, x, y.kind.cond, Drop(Queue(s, y.kind.cond), y));
    }
  }

  // Entering another wait does not touch x.
  lemma CondWaitSettles(s: Loop, y: Item, at: nat, x: Item, now: nat, early: bool)
    requires |s.wheel.slots| > 0 && y.kind.Cond? && y !in s.used && Settling(s, x, now, early)
    ensures Settling(CondWait(s, y, at), x, now, early)
  {
    assert x !in Queue(s, y.kind.cond);
    NotQueuedAfter(s.queues, x, y.kind.cond, Queue(s, y.kind.cond) + [y]);
  }

  lemma PollWaitSettles(s: Loop, y: Item, at: nat, x: Item, now: nat, early: bool)
    requires |s.wheel.slots| > 0 && Settling(s, x, now, early)
    ensures Settling(PollWait(s, y, at), x, now, early)
  {
    assert PollWait(s, y, at).queues == s.queues;
  }

  lemma StepSettles(s: Loop, e: Event, x: Item, now: nat, early: bool)
    requires Inv(s) && Enabled(s, e) && InsideDrain(e) && Settling(s, x, now, early)
    ensures Settling(Apply(s, e), x, now, early)
  {
    match e
    case EDrain => DrainSettles(s, x, now, early);
    case ESignal(c) => SignalSettles(s, c, x, now, early);
    case EBroadcast(c) => BroadcastSettles(s, c, x, now, early);
    case ECondWait(y, at) => CondWaitSettles(s, y, at, x, now, early);
    case EPollWait(y, at) => PollWaitSettles(s, y, at, x, now, early);
  }

  lemma {:induction false} RunSettles(s: Loop, es: seq<Event>, x: Item, now: nat, early: bool)
    requires Inv(s) && Legal(s, es) && Settling(s, x, now, early)
    requires forall i | 0 <= i < |es| :: InsideDrain(es[i])
    ensures Settling(Run(s, es), x, now, early)
    decreases |es|
  {
    if es != [] {
      StepSettles(s, es[0], x, now, early);
      StepKeepsInv(s, es[0]);
      RunSettles(Apply(s, es[0]), es[1..], x, now, early);
    }
  }

  // A signalled waiter is out of every queue and on the active list, and not resumed yet.
  lemma SignalledSettles(s: Loop, c: nat)
    requires Inv(s) && s.phase.Draining? && Queue(s, c) != []
    ensures var x := Queue(s, c)[0]; Settling(Signal(s, c), x, s.phase.now, IsEarly(s, x, s.phase.now))
  {
    var q := Queue(s, c);
    var x := q[0];
    assert QueueInv(q, c, s.waiting) && x in q;
    WaiterIsUsed(s, x);
    SignalMoves(s, c);
    forall d | d in s.queues && d != c ensures x !in s.queues[d] {
      assert QueueInv(s.queues[d], d, s.waiting);
    }
  }

  // A signal during a drain resumes its waiter in that drain if and only if the waiter is not at that
  // moment flagged as timed out ahead of its deadline: whatever the coroutines resumed before it do.
  lemma SignalResumesIffNotEarly(s: Loop, c: nat, es: seq<Event>)
    requires Inv(s) && s.phase.Draining? && Queue(s, c) != []
    requires Legal(Signal(s, c), es) && forall i | 0 <= i < |es| :: InsideDrain(es[i])
    requires Run(Signal(s, c), es).active == []
    ensures var x := Queue(s, c)[0];
            x in Run(Signal(s, c), es).resumed <==> !IsEarly(s, x, s.phase.now)
  {
    var x := Queue(s, c)[0];
    SignalledSettles(s, c);
    SignalKeepsInv(s, c);
    RunSettles(Signal(s, c), es, x, s.phase.now, IsEarly(s, x, s.phase.now));
  }

  // An unclamped waiter is never flagged early, so its signal always counts.
  lemma UnclampedIsNeverEarly(s: Loop, x: Item)
    requires Inv(s) && s.phase.Draining? && x !in s.wheel.far
    ensures !IsEarly(s, x, s.phase.now)
  {
  }

  // Otherwise it can be lost. A wait whose deadline lies beyond the wheel is clamped to the last slot,
  // the loop takes it when that slot is reached, and a signal that arrives before the pop is dropped.
  predicate BeyondWheel(n: nat, start: nat, x: Item) {
    2 <= n < 0x7fff_ffff && 0 < start && start + n <= x.deadline && x.kind.Cond? && x.kind.timed
  }

  function LastSlot(n: nat, x: Item): seq<seq<Item>> {
    seq(n, k => if k == n - 1 then [x] else [])
  }

  lemma ClampedIsFiled(n: nat, start: nat, x: Item)
    requires BeyondWheel(n, start, x)
    ensures T.AddTimeout(T.EmptyWheel(start, n), x, start) == (T.Wheel(LastSlot(n, x), start, {x}), 0)
  {
    var w := T.EmptyWheel(start, n);
    assert w.slots[n - 1] + [x] == [x];
    assert w.slots[n - 1 := [x]] == LastSlot(n, x);
    assert w.far + {x} == {x};
  }

  lemma LastSlotHolds(n: nat, x: Item)
    requires n > 0
    ensures Flatten(LastSlot(n, x)) == [x]
  {
    var slots := LastSlot(n, x);
    FlattenSplit(slots, n - 1);
    FlattenNothing(slots[..n - 1]);
    assert slots[n - 1..] == [[x]];
    assert Flatten([[x]]) == [x];
  }

  lemma ClampedIsTaken(n: nat, start: nat, x: Item)
    requires BeyondWheel(n, start, x)
    ensures T.TakeAllTimeout(T.Wheel(LastSlot(n, x), start, {x}), start + n - 1) ==
            (T.EmptyWheel(start + n - 1, n).(far := {x}), [x])
  {
    var slots := LastSlot(n, x);
    LastSlotHolds(n, x);
    assert T.TakeCount(n - 1, n) == n;
    assert slots[..n] == slots && slots[n..] == [];
    assert T.Turned(slots, n) == T.EmptyWheel(start, n).slots;
  }

  lemma ClampedIsRefiled(n: nat, now: nat, x: Item)
    requires 0 < now <= x.deadline && 0 < n < 0x7fff_ffff
    ensures var (w, ret) := T.AddTimeout(T.EmptyWheel(now, n).(far := {x}), x, now);
            ret == 0 && T.Pending(w) == multiset{x}
  {
    var none := T.EmptyWheel(now, n).slots;
    FlattenNothing(none);
    FlattenAppendAt(none, if x.deadline - now >= n then n - 1 else x.deadline - now, x);
  }

  // x is the only wait there is.
  predicate OnlyWait(s: Loop, x: Item, wheel: T.Wheel, active: seq<Item>, queue: seq<Item>, flagged: set<Item>,
                     phase: Phase)
    requires x.kind.Cond?
  {
    && s.wheel == wheel && s.active == active && Queue(s, x.kind.cond) == queue && s.flagged == flagged
    && s.phase == phase && s.resumed == [] && Waits(s, x)
  }

  lemma ClampedWaits(n: nat, start: nat, x: Item)
    requires BeyondWheel(n, start, x)
    ensures Enabled(Init(n, start), ECondWait(x, start))
    ensures var s := Apply(Init(n, start), ECondWait(x, start));
            OnlyWait(s, x, T.Wheel(LastSlot(n, x), start, {x}), [], [x], {}, Idle)
  {
    ClampedIsFiled(n, start, x);
    assert Init(n, start).wheel == T.EmptyWheel(start, n);
  }

  lemma ClampedTimesOut(s: Loop, n: nat, start: nat, x: Item)
    requires BeyondWheel(n, start, x)
    requires OnlyWait(s, x, T.Wheel(LastSlot(n, x), start, {x}), [], [x], {}, Idle)
    ensures var now := start + n - 1;
            && Enabled(s, ETake(now))
            && OnlyWait(Apply(s, ETake(now)), x, T.EmptyWheel(now, n).(far := {x}), [x], [x], {x}, Draining(now))
  {
    ClampedIsTaken(n, start, x);
    T.ShortGapsAreFaithful(n - 1, n);
    TakeIs(s, start + n - 1, [x]);
  }

  lemma TakeIs(s: Loop, now: nat, taken: seq<Item>)
    requires |s.wheel.slots| > 0 && T.TakeAllTimeout(s.wheel, now).1 == taken
    ensures var s' := Take(s, now);
            s' == s.(wheel := T.TakeAllTimeout(s.wheel, now).0, active := s.active + taken,
                     flagged := s.flagged + (set y | y in taken), phase := Draining(now), due := s'.due)
  {
  }

  lemma ClampedIsSignalled(s: Loop, n: nat, start: nat, x: Item)
    requires BeyondWheel(n, start, x)
    requires var now := start + n - 1;
             OnlyWait(s, x, T.EmptyWheel(now, n).(far := {x}), [x], [x], {x}, Draining(now))
    ensures var now := start + n - 1;
            OnlyWait(Apply(s, ESignal(x.kind.cond)), x, T.EmptyWheel(now, n).(far := {x}), [x], [], {x}, Draining(now))
  {
    var none := T.EmptyWheel(start, n).slots;
    assert DropEach(none, x) == none;
    assert Drop([x], x) == [];
  }

  lemma ClampedIsPutBack(s: Loop, n: nat, start: nat, x: Item)
    requires BeyondWheel(n, start, x)
    requires var now := start + n - 1;
             OnlyWait(s, x, T.EmptyWheel(now, n).(far := {x}), [x], [], {x}, Draining(now))
    ensures Enabled(s, EDrain)
    ensures var s' := Apply(s, EDrain);
            OnlyWait(s', x, s'.wheel, [], [], {}, s.phase) && T.Pending(s'.wheel) == multiset{x}
  {
    ClampedIsRefiled(n, s.phase.now, x);
  }

  lemma ThenRun(s: Loop, e: Event, es: seq<Event>)
    requires |s.wheel.slots| > 0 && Enabled(s, e) && Legal(Apply(s, e), es)
    ensures Legal(s, [e] + es) && Run(s, [e] + es) == Run(Apply(s, e), es)
  {
    assert ([e] + es)[1..] == es;
  }

  // On a wheel of any size, the 60 * 1000 slots of the code among them, and for every such deadline.
  lemma ClampedSignalIsLost(n: nat, start: nat, x: Item)
    requires BeyondWheel(n, start, x)
    ensures var c := x.kind.cond;
            var es := [ECondWait(x, start)] + ([ETake(start + n - 1)] + ([ESignal(c)] + ([EDrain] + [])));
            && Legal(Init(n, start), es)
            && var s := Run(Init(n, start), es);
            && s.resumed == [] && s.active == [] && Queue(s, c) == [] && Waits(s, x) && x !in s.flagged
            && T.Pending(s.wheel) == multiset{x}
  {
    var s0, c, now := Init(n, start), x.kind.cond, start + n - 1;
    ClampedWaits(n, start, x);
    var s1 := Apply(s0, ECondWait(x, start));
    ClampedTimesOut(s1, n, start, x);
    var s2 := Apply(s1, ETake(now));
    ClampedIsSignalled(s2, n, start, x);
    var s3 := Apply(s2, ESignal(c));
    ClampedIsPutBack(s3, n, start, x);
    ThenRun(s3, EDrain, []);
    ThenRun(s2, ESignal(c), [EDrain] + []);
    ThenRun(s1, ETake(now), [ESignal(c)] + ([EDrain] + []));
    ThenRun(s0, ECondWait(x, start), [ETake(now)] + ([ESignal(c)] + ([EDrain] + [])));
  }
}

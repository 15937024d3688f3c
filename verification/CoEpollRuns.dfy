/** Whole runs of the event loop on its linked lists: whatever steps the kernel, the clock and the
    coroutines take, the lists go through the states of module EventLoop. */
module CoEpollRuns {
  import opened TimeoutItem
  import opened EventLoop
  import opened CoEpoll
  import T = TimingWheel
  import L = IntrusiveList

  // What is held outside the loop between two steps: the kernel's data.ptr of every poll wait, and the
  // time at which the present turn took its timeouts.
  datatype Outside = Outside(ptrs: map<Item, L.Node>, now: nat)

  // The kernel knows the item of every poll wait.
  ghost predicate Knows(ptrs: map<Item, L.Node>, nodes: set<L.Node>, waiting: map<nat, Item>) {
    forall co | co in waiting && waiting[co].kind.Poll? :: KnowsOne(ptrs, nodes, co, waiting[co])
  }

  ghost predicate KnowsOne(ptrs: map<Item, L.Node>, nodes: set<L.Node>, co: nat, x: Item) {
    x.co == co && x in ptrs && ptrs[x] in nodes && ptrs[x].item == x
  }

  predicate ClockIs(phase: Phase, now: nat) {
    phase.Draining? ==> phase.now == now > 0
  }

  ghost predicate Ready(ctx: CoEpollCtx, o: Outside)
    reads ctx, ctx.Footprint()
  {
    ctx.Valid() && Knows(o.ptrs, ctx.lists.nodes, ctx.loop.waiting) && ClockIs(ctx.loop.phase, o.now)
  }

  // The step names a condition variable that has been allocated.
  predicate Names(e: Event, conds: nat) {
    match e
    case ESignal(c) => c < conds
    case EBroadcast(c) => c < conds
    case ECondWait(x, _) => x.kind.Cond? ==> x.kind.cond < conds
    case _ => true
  }

  // The objects of the loop are those it had, and new ones.
  twostate predicate Grew(ctx: CoEpollCtx)
    reads ctx.lists, ctx.queues
  {
    && ctx.queues.conds == old(ctx.queues.conds)
    && (forall n | n in ctx.lists.nodes :: n in old(ctx.lists.nodes) || fresh(n))
    && forall n | n in ctx.queues.nodes :: n in old(ctx.queues.nodes) || fresh(n)
  }

  lemma {:induction false} BroadcastWaits(s: Loop, c: nat)
    ensures var s' := Broadcast(s, c); s'.waiting == s.waiting && s'.phase == s.phase && s'.resumed == s.resumed
    decreases |Queue(s, c)|
  {
    if Queue(s, c) != [] {
      BroadcastWaits(Signal(s, c), c);
    }
  }

  // ---- The steps ---------------------------------------------------------------------------------

  method DoEvent(ctx: CoEpollCtx, x: Item, o: Outside)
    requires Ready(ctx, o) && Enabled(ctx.loop, EEventReady(x))
    modifies ctx, ctx.Footprint()
    ensures Ready(ctx, o) && Grew(ctx)
    ensures ctx.loop == EventReady(old(ctx.loop), x) && ctx.loop.resumed == old(ctx.loop.resumed)
  {
    ctx.OnPollPrepare(o.ptrs[x]);
  }

  method DoTake(ctx: CoEpollCtx, now: nat, o: Outside)
    requires Ready(ctx, o) && Enabled(ctx.loop, ETake(now))
    modifies ctx`loop
    modifies ctx.lists.pTimeout`ullStart, ctx.lists.pTimeout`llStartIdx, ctx.lists.pTimeout`start
    modifies ctx.lists.pTimeout`wheel, ctx.lists.pTimeout`contents, ctx.lists.pTimeout`repr
    modifies ctx.lists.pTimeout.lists`head, ctx.lists.pTimeout.lists`tail, ctx.lists.pTimeout.lists`nodes
    modifies ctx.lists.pstActiveList`head, ctx.lists.pstActiveList`tail, ctx.lists.pstActiveList`nodes
    modifies ctx.lists.pstTimeoutList`head, ctx.lists.pstTimeoutList`tail, ctx.lists.pstTimeoutList`nodes
    modifies ctx.lists.nodes`pPrev, ctx.lists.nodes`pNext, ctx.lists.nodes`pLink, ctx.lists.nodes`bTimeout
    ensures Ready(ctx, o.(now := now)) && Grew(ctx)
    ensures ctx.loop == Take(old(ctx.loop), now)
  {
    ctx.TakeTimeouts(now);
  }

  method DoSignal(ctx: CoEpollCtx, c: nat, o: Outside)
    requires Ready(ctx, o) && c < |ctx.queues.conds|
    modifies ctx, ctx.Footprint()
    ensures Ready(ctx, o) && Grew(ctx)
    ensures ctx.loop == Signal(old(ctx.loop), c) && ctx.loop.resumed == old(ctx.loop.resumed)
  {
    var _ := ctx.CondSignal(c);
  }

  method DoBroadcast(ctx: CoEpollCtx, c: nat, o: Outside)
    requires Ready(ctx, o) && c < |ctx.queues.conds|
    modifies ctx, ctx.Footprint()
    ensures Ready(ctx, o) && Grew(ctx)
    ensures ctx.loop == Broadcast(old(ctx.loop), c) && ctx.loop.resumed == old(ctx.loop.resumed)
  {
    BroadcastWaits(ctx.loop, c);
    ctx.CondBroadcast(c);
  }

  lemma DrainWaits(s: Loop)
    requires |s.wheel.slots| > 0 && s.phase.Draining? && s.active != []
    ensures var s', x := Drain(s), s.active[0];
            && s'.phase == s.phase
            && if s'.resumed == s.resumed then s'.waiting == s.waiting
               else s'.resumed == s.resumed + [x] && s'.waiting == s.waiting - {x.co}
  {
  }

  // The waits after a turn of the drain: all, or all but that of the coroutine that is resumed.
  lemma KnowsLess(ptrs: map<Item, L.Node>, nodes: set<L.Node>, nodes': set<L.Node>, waiting: map<nat, Item>, x: Item)
    requires Knows(ptrs, nodes, waiting) && forall n | n in nodes && n.item != x :: n in nodes'
    ensures Knows(ptrs, nodes', waiting - {x.co})
  {
    forall co | co in waiting && co != x.co && waiting[co].kind.Poll? ensures KnowsOne(ptrs, nodes', co, waiting[co]) {
      assert KnowsOne(ptrs, nodes, co, waiting[co]);
    }
  }

  lemma DrainKnows(s: Loop, ptrs: map<Item, L.Node>, nodes: set<L.Node>, nodes': set<L.Node>, resumed: bool)
    requires |s.wheel.slots| > 0 && s.phase.Draining? && s.active != [] && Knows(ptrs, nodes, s.waiting)
    requires forall n | n in nodes && (!resumed || n.item != s.active[0]) :: n in nodes'
    requires Drain(s).resumed == s.resumed + if resumed then [s.active[0]] else []
    ensures Knows(ptrs, nodes', Drain(s).waiting) && Drain(s).phase == s.phase
  {
    DrainWaits(s);
    if resumed {
      KnowsLess(ptrs, nodes, nodes', s.waiting, s.active[0]);
    }
  }

  method DoDrain(ctx: CoEpollCtx, o: Outside) returns (resumed: seq<Item>)
    requires Ready(ctx, o) && Enabled(ctx.loop, EDrain) && |ctx.loop.wheel.slots| > 0
    modifies ctx, ctx.Footprint()
    ensures Ready(ctx, o) && Grew(ctx)
    ensures ctx.loop == Drain(old(ctx.loop)) && ctx.loop.resumed == old(ctx.loop.resumed) + resumed
  {
    ghost var s, nodes := ctx.loop, ctx.lists.nodes;
    var went, lp := ctx.DrainOne(o.now);
    DrainKnows(s, o.ptrs, nodes, ctx.lists.nodes, went);
    resumed := if went then [lp] else [];
  }

  // A new wait of a coroutine; a poll is known with its item.
  lemma KnowsMore(ptrs: map<Item, L.Node>, nodes: set<L.Node>, waiting: map<nat, Item>, x: Item,
                  ptrs': map<Item, L.Node>, nodes': set<L.Node>)
    requires Knows(ptrs, nodes, waiting) && nodes <= nodes'
    requires forall y | y in ptrs && y != x :: y in ptrs' && ptrs'[y] == ptrs[y]
    requires x.kind.Poll? ==> KnowsOne(ptrs', nodes', x.co, x)
    ensures Knows(ptrs', nodes', waiting[x.co := x])
  {
    forall co | co in waiting && co != x.co && waiting[co].kind.Poll?
      ensures KnowsOne(ptrs', nodes', co, waiting[co])
    {
      assert KnowsOne(ptrs, nodes, co, waiting[co]);
    }
  }

  lemma CondWaitKnows(s: Loop, x: Item, now: nat, ptrs: map<Item, L.Node>, nodes: set<L.Node>, nodes': set<L.Node>)
    requires |s.wheel.slots| > 0 && x.kind.Cond? && Knows(ptrs, nodes, s.waiting) && nodes <= nodes'
    ensures var s' := CondWait(s, x, now);
            Knows(ptrs, nodes', s'.waiting) && s'.phase == s.phase && s'.resumed == s.resumed
  {
    WaitsAfter(s, x, now);
    KnowsMore(ptrs, nodes, s.waiting, x, ptrs, nodes');
  }

  lemma PollWaitKnows(s: Loop, arg: L.Node, now: nat, ptrs: map<Item, L.Node>, nodes: set<L.Node>,
                      nodes': set<L.Node>)
    requires |s.wheel.slots| > 0 && Knows(ptrs, nodes, s.waiting) && nodes <= nodes'
    requires FileItem(s, arg.item, now).1 == 0 ==> arg in nodes'
    ensures var s' := PollWait(s, arg.item, now);
            && Knows(Registered(ptrs, arg, FileItem(s, arg.item, now).1), nodes', s'.waiting)
            && s'.phase == s.phase && s'.resumed == s.resumed
  {
    WaitsAfter(s, arg.item, now);
    if FileItem(s, arg.item, now).1 == 0 {
      KnowsMore(ptrs, nodes, s.waiting, arg.item, ptrs[arg.item := arg], nodes');
    }
  }

  lemma WaitsAfter(s: Loop, x: Item, now: nat)
    requires |s.wheel.slots| > 0
    ensures x.kind.Cond? ==> Entering(s, CondWait(s, x, now), x, !x.kind.timed || FileItem(s, x, now).1 == 0)
    ensures Entering(s, PollWait(s, x, now), x, FileItem(s, x, now).1 == 0)
  {
  }

  predicate Entering(s: Loop, s': Loop, x: Item, filed: bool) {
    && s'.waiting == (if filed then s.waiting[x.co := x] else s.waiting)
    && s'.phase == s.phase && s'.resumed == s.resumed
  }

  method DoCondWait(ctx: CoEpollCtx, x: Item, now: nat, o: Outside)
    requires Ready(ctx, o) && Enabled(ctx.loop, ECondWait(x, now)) && x.kind.cond < |ctx.queues.conds|
    modifies ctx`loop, ctx.lists`nodes
    modifies ctx.lists.pTimeout`ullStart, ctx.lists.pTimeout`llStartIdx, ctx.lists.pTimeout`start
    modifies ctx.lists.pTimeout`wheel, ctx.lists.pTimeout`contents, ctx.lists.pTimeout`repr
    modifies ctx.lists.pTimeout.lists`head, ctx.lists.pTimeout.lists`tail, ctx.lists.pTimeout.lists`nodes
    modifies ctx.lists.nodes`pNext
    modifies ctx.queues`psis, ctx.queues`contents, ctx.queues`nodes
    modifies ctx.queues.conds`head, ctx.queues.conds`tail, ctx.queues.conds`nodes, ctx.queues.nodes`pNext
    ensures Ready(ctx, o) && Grew(ctx)
    ensures ctx.loop == CondWait(old(ctx.loop), x, now) && ctx.loop.resumed == old(ctx.loop.resumed)
  {
    ghost var s, nodes := ctx.loop, ctx.lists.nodes;
    var _ := ctx.CondTimedWait(x, now);
    CondWaitKnows(s, x, now, o.ptrs, nodes, ctx.lists.nodes);
  }

  // epoll_ctl gets the item of a new poll wait.
  function Registered(ptrs: map<Item, L.Node>, arg: L.Node, ret: int): map<Item, L.Node> {
    if ret == 0 then ptrs[arg.item := arg] else ptrs
  }

  method DoPollWait(ctx: CoEpollCtx, x: Item, now: nat, o: Outside) returns (o': Outside)
    requires Ready(ctx, o) && Enabled(ctx.loop, EPollWait(x, now))
    modifies ctx`loop, ctx.lists`nodes
    modifies ctx.lists.pTimeout`ullStart, ctx.lists.pTimeout`llStartIdx, ctx.lists.pTimeout`start
    modifies ctx.lists.pTimeout`wheel, ctx.lists.pTimeout`contents, ctx.lists.pTimeout`repr
    modifies ctx.lists.pTimeout.lists`head, ctx.lists.pTimeout.lists`tail, ctx.lists.pTimeout.lists`nodes
    modifies ctx.lists.nodes`pNext
    ensures Ready(ctx, o') && Grew(ctx)
    ensures ctx.loop == PollWait(old(ctx.loop), x, now) && ctx.loop.resumed == old(ctx.loop.resumed)
  {
    ghost var s, nodes := ctx.loop, ctx.lists.nodes;
    var ret, arg := ctx.PollInner(x, now);
    PollWaitKnows(s, arg, now, o.ptrs, nodes, ctx.lists.nodes);
    o' := o.(ptrs := Registered(o.ptrs, arg, ret));
  }

  // ---- Runs ----------------------------------------------------------------------------------------

  // One step of the loop or of a coroutine; the result is the wait whose coroutine is resumed, if any.
  method Step(ctx: CoEpollCtx, e: Event, o: Outside) returns (o': Outside, resumed: seq<Item>)
    requires Ready(ctx, o) && Enabled(ctx.loop, e) && Names(e, |ctx.queues.conds|)
    modifies ctx, ctx.Footprint()
    ensures Ready(ctx, o') && Grew(ctx)
    ensures ctx.loop == Apply(old(ctx.loop), e) && ctx.loop.resumed == old(ctx.loop.resumed) + resumed
  {
    o', resumed := o, [];
    match e
    case EEventReady(x) => DoEvent(ctx, x, o);
    case ETake(now) =>
      DoTake(ctx, now, o);
      o' := o.(now := now);
    case EDrain => resumed := DoDrain(ctx, o);
    case EEndDrain => ctx.EndTurn();
    case ESignal(c) => DoSignal(ctx, c, o);
    case EBroadcast(c) => DoBroadcast(ctx, c, o);
    case ECondWait(x, now) => DoCondWait(ctx, x, now, o);
    case EPollWait(x, now) => o' := DoPollWait(ctx, x, now, o);
  }

  // The steps of a run in turn; `had` are the coroutines resumed so far.
  method RunSteps(ctx: CoEpollCtx, es: seq<Event>, o: Outside, had: seq<Item>) returns (resumed: seq<Item>)
    requires Ready(ctx, o) && Legal(ctx.loop, es) && forall e | e in es :: Names(e, |ctx.queues.conds|)
    requires had == ctx.loop.resumed
    modifies ctx, ctx.Footprint()
    ensures ctx.Valid() && ctx.loop == Run(old(ctx.loop), es) && resumed == ctx.loop.resumed
    decreases |es|
  {
    if es == [] {
      return had;
    }
    var o', more := Step(ctx, es[0], o);
    resumed := RunSteps(ctx, es[1..], o', had + more);
  }

  twostate lemma FootprintGrew(ctx: CoEpollCtx)
    requires ctx.lists.nodes == old(ctx.lists.nodes) && ctx.queues.nodes == old(ctx.queues.nodes)
    requires forall l | l in ctx.queues.conds :: l in old(ctx.queues.conds) || fresh(l)
    ensures forall o | o in ctx.Footprint() :: o in old(ctx.Footprint()) || fresh(o)
  {
  }

  // co_cond_alloc, several times.
  method AllocConds(ctx: CoEpollCtx, n: nat)
    requires ctx.Valid() && ctx.queues.conds == []
    modifies ctx.queues`conds, ctx.queues`contents
    ensures ctx.Valid() && |ctx.queues.conds| == n && forall l | l in ctx.queues.conds :: fresh(l)
    ensures forall o | o in ctx.Footprint() :: o in old(ctx.Footprint()) || fresh(o)
  {
    for i := 0 to n
      invariant ctx.Valid() && |ctx.queues.conds| == i && forall l | l in ctx.queues.conds :: fresh(l)
    {
      var _ := ctx.CondAlloc();
    }
    FootprintGrew(ctx);
  }

  method Open(size: nat, now: nat) returns (ctx: CoEpollCtx)
    requires 0 < size < 0x8000_0000 && 0 < now
    ensures ctx.Valid() && ctx.loop == Init(size, now) && ctx.queues.conds == []
    ensures fresh(ctx) && fresh(ctx.Footprint())
  {
    ctx := new CoEpollCtx(size, now);
    FootprintIsNew(ctx);
  }

  twostate lemma FootprintIsNew(new ctx: CoEpollCtx)
    requires fresh(ctx.lists) && fresh(ctx.lists.pTimeout) && fresh(ctx.lists.pTimeout.pItems) && fresh(ctx.queues)
    requires fresh(ctx.lists.pstActiveList) && fresh(ctx.lists.pstTimeoutList)
    requires forall l | l in ctx.lists.pTimeout.lists :: fresh(l)
    requires ctx.queues.conds == [] && ctx.lists.nodes == {} && ctx.queues.nodes == {}
    ensures fresh(ctx.Footprint())
  {
  }

  // A new loop and its condition variables.
  method OpenWith(size: nat, now: nat, conds: nat) returns (ctx: CoEpollCtx)
    requires 0 < size < 0x8000_0000 && 0 < now
    ensures Ready(ctx, Outside(map[], now)) && ctx.loop == Init(size, now) && |ctx.queues.conds| == conds
    ensures fresh(ctx) && fresh(ctx.Footprint())
  {
    ctx := Open(size, now);
    AllocConds(ctx, conds);
  }

  // Every legal run from the start, on the lists: they show the state of the machine, with its invariant,
  // and the coroutines are resumed in the machine's order.
  method RunLoop(size: nat, now: nat, conds: nat, es: seq<Event>) returns (ctx: CoEpollCtx, resumed: seq<Item>)
    requires 0 < size < 0x8000_0000 && 0 < now && Legal(Init(size, now), es)
    requires forall e | e in es :: Names(e, conds)
    ensures ctx.Valid() && ctx.loop == Run(Init(size, now), es) && Inv(ctx.loop)
    ensures resumed == Run(Init(size, now), es).resumed
  {
    ctx := OpenWith(size, now, conds);
    InitInv(size, now);
    RunKeepsInv(Init(size, now), es);
    resumed := RunSteps(ctx, es, Outside(map[], now), []);
  }
}

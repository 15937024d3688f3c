/** The event loop as the code runs it: the loops of co_eventloop and co_cond_broadcast over the linked
    lists they change. Every method is proved to take exactly the steps of module EventLoop; module
    CoEpollRuns joins them to runs. */
module CoEpoll {
  import opened Sequences
  import opened TimeoutItem
  import opened EventLoop
  import opened EventOrder
  import T = TimingWheel
  import L = IntrusiveList
  import W = WheelArray
  import E = EpollLists
  import Q = CondQueues

  // The flags of a timeout item are the sets of the machine.
  ghost predicate Told(nodes: set<L.Node>, used: set<Item>, flagged: set<Item>, detached: set<Item>)
    reads nodes`bTimeout, nodes`detached
  {
    forall n | n in nodes ::
      n.item in used && (n.bTimeout <==> n.item in flagged) && (n.detached <==> n.item in detached)
  }

  // A condition item and its timeout item belong to the same wait.
  ghost predicate Paired(nodes: set<L.Node>, psis: map<Item, L.Node>) {
    && (forall n | n in nodes && n.item.kind.Cond? :: n.item in psis && psis[n.item].timeout == n)
    && forall x | x in psis :: psis[x].timeout != null && psis[x].timeout in nodes && psis[x].timeout.item == x
  }

  ghost predicate SameQueues(queues: map<nat, seq<Item>>, contents: seq<seq<L.Node>>) {
    forall c: nat :: QueueIn(queues, c) == Q.QueueOf(contents, c)
  }

  lemma PairedLess(nodes: set<L.Node>, psis: map<Item, L.Node>, node: L.Node)
    requires Paired(nodes, psis) && node in nodes && E.Distinct(nodes) && forall x | x in psis :: x.kind.Cond?
    ensures Paired(nodes - {node}, psis - {node.item}) && (node.item in psis <==> node.item.kind.Cond?)
  {
  }

  // The queues after AddTail of a condition item.
  lemma Pushed(was: map<nat, seq<Item>>, contents: seq<seq<L.Node>>, psi: L.Node)
    requires SameQueues(was, contents) && psi.item.kind.Cond? && psi.item.kind.cond < |contents|
    ensures var c := psi.item.kind.cond;
            SameQueues(was[c := QueueIn(was, c) + [psi.item]], contents[c := contents[c] + [psi]])
  {
    var c := psi.item.kind.cond;
    var was', contents' := was[c := QueueIn(was, c) + [psi.item]], contents[c := contents[c] + [psi]];
    L.ItemsConcat(contents[c], [psi]);
    assert L.ItemsOf([psi]) == [psi.item];
    forall d: nat ensures QueueIn(was', d) == Q.QueueOf(contents', d) {
      assert QueueIn(was, d) == Q.QueueOf(contents, d);
    }
  }

  // co_cond_pop: the first waiter leaves the queue.
  ghost function Dequeued(s: Loop, c: nat): Loop {
    if Queue(s, c) == [] then s else s.(queues := s.queues[c := Queue(s, c)[1..]])
  }

  // The queues after the head of queue c is gone.
  lemma Popped(was: map<nat, seq<Item>>, contents: seq<seq<L.Node>>, c: nat)
    requires SameQueues(was, contents) && c < |contents| && contents[c] != []
    ensures SameQueues(was[c := QueueIn(was, c)[1..]], contents[c := contents[c][1..]])
    ensures QueueIn(was, c)[0] == contents[c][0].item
  {
    assert QueueIn(was, c) == Q.QueueOf(contents, c);
    var was', contents' := was[c := QueueIn(was, c)[1..]], contents[c := contents[c][1..]];
    assert Q.QueueOf(contents', c) == Q.QueueOf(contents, c)[1..];
    forall d: nat ensures QueueIn(was', d) == Q.QueueOf(contents', d) {
      assert QueueIn(was, d) == Q.QueueOf(contents, d);
    }
  }

  ghost predicate NodesApart(nodes: set<L.Node>, psis: set<L.Node>) {
    (forall n | n in nodes :: n !in psis) && forall n | n in psis :: n !in nodes
  }

  lemma PairedMore(nodes: set<L.Node>, psis: map<Item, L.Node>, node: L.Node, psi: L.Node)
    requires Paired(nodes - {node}, psis) && node in nodes
    requires psi.item == node.item && psi.timeout == node && psi.item !in psis
    ensures Paired(nodes, psis[psi.item := psi])
  {
  }

  lemma NewHasNoPsi(nodes: set<L.Node>, psis: map<Item, L.Node>, used: set<Item>, x: Item)
    requires Paired(nodes, psis) && x !in used && forall n | n in nodes :: n.item in used
    ensures x !in psis
  {
  }

  // What co_cond_timedwait does to the wheel.
  ghost function Filed(s: Loop, x: Item, now: nat): (r: (T.Wheel, int))
    requires |s.wheel.slots| > 0 && x.kind.Cond?
  {
    if x.kind.timed then T.AddTimeout(s.wheel, x, now) else (s.wheel, 0)
  }

  lemma CondWaitIs(s: Loop, x: Item, now: nat)
    requires |s.wheel.slots| > 0 && x.kind.Cond?
    ensures var s', c := CondWait(s, x, now), x.kind.cond;
            var (wheel, ret) := Filed(s, x, now);
            && s'.wheel == wheel && s'.active == s.active && s'.flagged == s.flagged && s'.detached == s.detached
            && s'.used == (if ret == 0 then s.used + {x} else s.used)
            && s'.queues == (if ret == 0 then s.queues[c := QueueIn(s.queues, c) + [x]] else s.queues)
            && (x.kind.timed ==> FileItem(s, x, now).1 == ret)
  {
  }

  // No list is both a queue and a list of timeout items.
  ghost predicate LinksApart(conds: seq<L.Link>, slots: seq<L.Link>, active: L.Link, timeout: L.Link) {
    && (forall l | l in conds :: l !in slots && l != active && l != timeout)
    && forall l | l in slots :: l !in conds
  }

  method AllocEpoll(size: nat, now: nat) returns (lists: E.EpollLists)
    requires 0 < size < 0x8000_0000
    ensures lists.Valid() && lists.nodes == {} && lists.Active() == []
    ensures lists.Wheel() == T.Wheel(seq(size, _ => []), now, {})
    ensures fresh(lists) && fresh(lists.pTimeout) && fresh(lists.pstActiveList) && fresh(lists.pstTimeoutList)
    ensures fresh(lists.pTimeout.pItems) && forall l | l in lists.pTimeout.lists :: fresh(l)
  {
    var pTimeout := W.AllocTimeout(size, now);
    var active := new L.Link();
    var timeout := new L.Link();
    lists := new E.EpollLists(pTimeout, active, timeout);
  }

  class CoEpollCtx {
    const lists: E.EpollLists   // pTimeout, pstActiveList, pstTimeoutList
    const queues: Q.Conds       // the condition variables
    ghost var loop: Loop

    ghost predicate Valid()
      reads this, Footprint()
    {
      && lists.Valid() && queues.Valid() && Apart() && Shows(loop)
    }

    ghost function Footprint(): set<object>
      reads lists, queues
    {
      {lists, lists.pTimeout, lists.pTimeout.pItems, lists.pstActiveList, lists.pstTimeoutList, queues}
      + (set l | l in lists.pTimeout.lists) + (set l | l in queues.conds) + lists.nodes + queues.nodes
    }

    ghost predicate Apart()
      reads lists, queues
    {
      && NodesApart(lists.nodes, queues.nodes)
      && LinksApart(queues.conds, lists.pTimeout.lists, lists.pstActiveList, lists.pstTimeoutList)
    }

    // The lists and flags show the state of the machine.
    ghost predicate Shows(s: Loop)
      reads lists, lists.pTimeout, lists.pstActiveList, queues, lists.nodes`bTimeout, lists.nodes`detached
    {
      && |s.wheel.slots| > 0
      && s.wheel == lists.Wheel() && s.active == lists.Active() && SameQueues(s.queues, queues.contents)
      && Told(lists.nodes, s.used, s.flagged, s.detached) && Paired(lists.nodes, queues.psis)
      && s.flagged <= s.used && s.detached <= s.used
    }

    constructor (size: nat, now: nat)
      requires 0 < size < 0x8000_0000 && 0 < now
      ensures Valid() && loop == Init(size, now) && Inv(loop) && queues.conds == []
      ensures fresh(lists) && fresh(lists.pTimeout) && fresh(queues) && lists.nodes == {} && queues.nodes == {}
      ensures fresh(lists.pstActiveList) && fresh(lists.pstTimeoutList)
      ensures fresh(lists.pTimeout.pItems) && forall l | l in lists.pTimeout.lists :: fresh(l)
    {
      var ctx := AllocEpoll(size, now);
      lists := ctx;
      queues := new Q.Conds();
      loop := Init(size, now);
      InitInv(size, now);
    }

    // The lists show the next state: the ghost machine follows.
    ghost method Follow(next: Loop)
      requires lists.Valid() && queues.Valid() && Apart() && Shows(next)
      modifies this`loop
      ensures Valid() && loop == next
    {
      loop := next;
    }

    // RemoveFromLink and AddTail on the active list, for the timeout item of a wait.
    method MoveToActive(ap: L.Node, ghost s: Loop)
      requires lists.Valid() && queues.Valid() && Apart() && ap in lists.nodes
      requires Told(lists.nodes, s.used, s.flagged, s.detached)
      modifies lists.pTimeout`wheel, lists.pTimeout`contents, lists.pTimeout`repr
      modifies lists.pTimeout.lists`head, lists.pTimeout.lists`tail, lists.pTimeout.lists`nodes
      modifies lists.pstActiveList`head, lists.pstActiveList`tail, lists.pstActiveList`nodes
      modifies lists.nodes`pPrev, lists.nodes`pNext, lists.nodes`pLink
      ensures lists.Valid() && queues.Valid() && Told(lists.nodes, s.used, s.flagged, s.detached)
      ensures lists.Wheel() == T.Remove(old(lists.Wheel()), ap.item)
      ensures lists.Active() == Drop(old(lists.Active()), ap.item) + [ap.item]
    {
      lists.MoveToActive(ap);
      queues.Stays();
    }

    // OnPollPreparePfn: only the first event of a poll moves its item.
    method OnPollPrepare(ap: L.Node)
      requires Valid() && ap in lists.nodes
      modifies this`loop, lists.pTimeout`wheel, lists.pTimeout`contents, lists.pTimeout`repr
      modifies lists.pTimeout.lists`head, lists.pTimeout.lists`tail, lists.pTimeout.lists`nodes
      modifies lists.pstActiveList`head, lists.pstActiveList`tail, lists.pstActiveList`nodes
      modifies lists.nodes`pPrev, lists.nodes`pNext, lists.nodes`pLink, lists.nodes`detached
      ensures Valid() && loop == EventReady(old(loop), ap.item)
      ensures ap.detached && forall n | n in lists.nodes && n != ap :: n.detached == old(n.detached)
      ensures old(ap.detached) ==> lists.Wheel() == old(lists.Wheel()) && lists.Active() == old(lists.Active())
      ensures !old(ap.detached) ==> lists.Active() == Drop(old(lists.Active()), ap.item) + [ap.item]
    {
      if !ap.detached {
        CountFirst(ap);
      }
    }

    method CountFirst(ap: L.Node)
      requires Valid() && ap in lists.nodes && !ap.detached
      modifies this`loop, lists.pTimeout`wheel, lists.pTimeout`contents, lists.pTimeout`repr
      modifies lists.pTimeout.lists`head, lists.pTimeout.lists`tail, lists.pTimeout.lists`nodes
      modifies lists.pstActiveList`head, lists.pstActiveList`tail, lists.pstActiveList`nodes
      modifies lists.nodes`pPrev, lists.nodes`pNext, lists.nodes`pLink, ap`detached
      ensures Valid() && loop == EventReady(old(loop), ap.item)
      ensures ap.detached && lists.Active() == Drop(old(lists.Active()), ap.item) + [ap.item]
    {
      FirstEvent(ap, loop);
      Follow(EventReady(loop, ap.item));
    }

    method FirstEvent(ap: L.Node, ghost s: Loop)
      requires lists.Valid() && queues.Valid() && Apart() && Shows(s) && ap in lists.nodes && !ap.detached
      modifies lists.pTimeout`wheel, lists.pTimeout`contents, lists.pTimeout`repr
      modifies lists.pTimeout.lists`head, lists.pTimeout.lists`tail, lists.pTimeout.lists`nodes
      modifies lists.pstActiveList`head, lists.pstActiveList`tail, lists.pstActiveList`nodes
      modifies lists.nodes`pPrev, lists.nodes`pNext, lists.nodes`pLink, ap`detached
      ensures lists.Valid() && queues.Valid() && Apart() && Shows(EventReady(s, ap.item))
      ensures lists.Active() == Drop(old(lists.Active()), ap.item) + [ap.item] && ap.detached
    {
      ReadyIs(s, ap.item);
      Detach(ap, s);
      MoveToActive(ap, EventReady(s, ap.item));
    }

    // iAllEventDetach = 1
    method Detach(ap: L.Node, ghost s: Loop)
      requires lists.Valid() && queues.Valid() && ap in lists.nodes
      requires Told(lists.nodes, s.used, s.flagged, s.detached)
      modifies ap`detached
      ensures lists.Valid() && queues.Valid() && Told(lists.nodes, s.used, s.flagged, s.detached + {ap.item})
    {
      ap.detached := true;
    }

    // The loop of lines 811-822 over the reported events.
    method PrepareEvents(events: seq<L.Node>)
      requires Valid() && forall ap | ap in events :: ap in lists.nodes
      modifies this`loop, lists.pTimeout`wheel, lists.pTimeout`contents, lists.pTimeout`repr
      modifies lists.pTimeout.lists`head, lists.pTimeout.lists`tail, lists.pTimeout.lists`nodes
      modifies lists.pstActiveList`head, lists.pstActiveList`tail, lists.pstActiveList`nodes
      modifies lists.nodes`pPrev, lists.nodes`pNext, lists.nodes`pLink, lists.nodes`detached
      ensures Valid() && loop == EventsReady(old(loop), L.ItemsOf(events))
      ensures var first := FirstEvents(L.ItemsOf(events), old(loop).detached);
              lists.Active() == Rest(old(lists.Active()), first) + first
    {
      ghost var was, items := loop, L.ItemsOf(events);
      for i := 0 to |events|
        invariant Valid() && loop == EventsReady(was, items[..i])
      {
        EventsSnoc(was, items, i);
        OnPollPrepare(events[i]);
      }
      assert items[..|events|] == items;
      BatchOrder(was, items);
    }

    // Lines 825-836: the taken items are flagged one by one and joined to the active list.
    method TakeTimeouts(now: nat)
      requires Valid() && 0 < now && GapFits(loop, now)
      modifies this`loop
      modifies lists.pTimeout`ullStart, lists.pTimeout`llStartIdx, lists.pTimeout`start
      modifies lists.pTimeout`wheel, lists.pTimeout`contents, lists.pTimeout`repr
      modifies lists.pTimeout.lists`head, lists.pTimeout.lists`tail, lists.pTimeout.lists`nodes
      modifies lists.pstActiveList`head, lists.pstActiveList`tail, lists.pstActiveList`nodes
      modifies lists.pstTimeoutList`head, lists.pstTimeoutList`tail, lists.pstTimeoutList`nodes
      modifies lists.nodes`pPrev, lists.nodes`pNext, lists.nodes`pLink, lists.nodes`bTimeout
      ensures Valid() && loop == Take(old(loop), now)
    {
      NeverWraps(loop, now);
      TakeDue(now, loop);
      Follow(Take(loop, now));
    }

    method TakeDue(now: nat, ghost s: Loop)
      requires lists.Valid() && queues.Valid() && Apart() && Shows(s) && 0 < now
      requires !T.WrapsToZero(T.Started(s.wheel, now), now)
      modifies lists.pTimeout`ullStart, lists.pTimeout`llStartIdx, lists.pTimeout`start
      modifies lists.pTimeout`wheel, lists.pTimeout`contents, lists.pTimeout`repr
      modifies lists.pTimeout.lists`head, lists.pTimeout.lists`tail, lists.pTimeout.lists`nodes
      modifies lists.pstActiveList`head, lists.pstActiveList`tail, lists.pstActiveList`nodes
      modifies lists.pstTimeoutList`head, lists.pstTimeoutList`tail, lists.pstTimeoutList`nodes
      modifies lists.nodes`pPrev, lists.nodes`pNext, lists.nodes`pLink, lists.nodes`bTimeout
      ensures lists.Valid() && queues.Valid() && Apart() && Shows(Take(s, now))
    {
      TakeShows(s, now);
      lists.TakeTimeouts(now);
      queues.Stays();
      ActiveIsUsed(s.used);
    }

    // One turn of the drain loop: PopHead, then AddTimeout or pfnProcess. The result is the
    // coroutine that was resumed, if any.
    method DrainOne(now: nat) returns (resumed: bool, lp: Item)
      requires Valid() && 0 < now && loop.active != [] && loop.phase == Draining(now)
      modifies this`loop, lists`nodes
      modifies lists.pTimeout`ullStart, lists.pTimeout`llStartIdx, lists.pTimeout`start
      modifies lists.pTimeout`wheel, lists.pTimeout`contents, lists.pTimeout`repr
      modifies lists.pTimeout.lists`head, lists.pTimeout.lists`tail, lists.pTimeout.lists`nodes
      modifies lists.pstActiveList`head, lists.pstActiveList`tail, lists.pstActiveList`nodes
      modifies lists.nodes`pPrev, lists.nodes`pNext, lists.nodes`pLink, lists.nodes`bTimeout
      modifies queues`psis, queues`contents, queues`nodes
      modifies queues.conds`head, queues.conds`tail, queues.conds`nodes
      modifies queues.nodes`pPrev, queues.nodes`pNext, queues.nodes`pLink
      ensures Valid() && loop == Drain(old(loop))
      ensures lp == old(loop.active)[0] && loop.resumed == old(loop.resumed) + if resumed then [lp] else []
      ensures lists.nodes <= old(lists.nodes) && queues.nodes <= old(queues.nodes)
      ensures forall n | n in old(lists.nodes) && (!resumed || n.item != lp) :: n in lists.nodes
    {
      ghost var s := loop;
      var node := Pop(s);
      lp := node.item;
      resumed := Dispatch(node, now, s);
    }

    // The rest of the turn, once the item is off the active list.
    method Dispatch(node: L.Node, now: nat, ghost s: Loop) returns (resumed: bool)
      requires s.active != [] && s.phase == Draining(now) && 0 < now && |s.wheel.slots| > 0
      requires lists.Valid() && queues.Valid() && Apart() && Shows(s.(active := s.active[1..]))
      requires node in lists.nodes && node.pLink == null && node.item == s.active[0]
      modifies this`loop, lists`nodes
      modifies lists.pTimeout`ullStart, lists.pTimeout`llStartIdx, lists.pTimeout`start
      modifies lists.pTimeout`wheel, lists.pTimeout`contents, lists.pTimeout`repr
      modifies lists.pTimeout.lists`head, lists.pTimeout.lists`tail, lists.pTimeout.lists`nodes
      modifies lists.nodes`pNext, node`pPrev, node`pLink, node`bTimeout
      modifies queues`psis, queues`contents, queues`nodes
      modifies queues.conds`head, queues.conds`tail, queues.conds`nodes
      modifies queues.nodes`pPrev, queues.nodes`pNext, queues.nodes`pLink
      ensures Valid() && loop == Drain(s) && loop.resumed == s.resumed + if resumed then [node.item] else []
      ensures lists.nodes <= old(lists.nodes) && queues.nodes <= old(queues.nodes)
      ensures forall n | n in old(lists.nodes) && (!resumed || n.item != node.item) :: n in lists.nodes
    {
      var back := PutBack(node, now, s);
      if !back {
        ProcessItem(node, s.(active := s.active[1..], wheel := lists.Wheel()));
      }
      resumed := !back;
    }

    // Lines 843-851: an item that the clamp brought too early goes back to the wheel.
    method PutBack(node: L.Node, now: nat, ghost s: Loop) returns (back: bool)
      requires s.active != [] && s.phase == Draining(now) && 0 < now && |s.wheel.slots| > 0
      requires lists.Valid() && queues.Valid() && Apart() && Shows(s.(active := s.active[1..]))
      requires node in lists.nodes && node.pLink == null && node.item == s.active[0]
      modifies this`loop
      modifies lists.pTimeout`ullStart, lists.pTimeout`llStartIdx, lists.pTimeout`start
      modifies lists.pTimeout`wheel, lists.pTimeout`contents, lists.pTimeout`repr
      modifies lists.pTimeout.lists`head, lists.pTimeout.lists`tail, lists.pTimeout.lists`nodes
      modifies lists.nodes`pNext, node`pPrev, node`pLink, node`bTimeout
      ensures lists.Valid() && queues.Valid() && Apart()
      ensures back ==> Valid() && loop == Drain(s) && loop.resumed == s.resumed
      ensures !back ==> Shows(s.(active := s.active[1..], wheel := lists.Wheel())) && node.pLink == null
      ensures !back ==> Drain(s) == Process(s.(active := s.active[1..], wheel := lists.Wheel()), node.item)
    {
      back := false;
      if node.bTimeout && now < node.item.deadline {
        var ret := FileAgain(node, now, s.(active := s.active[1..]));
        if ret == 0 {
          ClearFlag(node, s.(active := s.active[1..], wheel := lists.Wheel()));
          DrainRefiles(s, lists.Wheel());
          Follow(Drain(s));
          return true;
        }
      }
      DrainResumes(s, lists.Wheel());
    }

    method Pop(ghost s: Loop) returns (node: L.Node)
      requires lists.Valid() && queues.Valid() && Apart() && Shows(s) && s.active != []
      modifies lists.pstActiveList`head, lists.pstActiveList`tail, lists.pstActiveList`nodes
      modifies lists.nodes`pPrev, lists.nodes`pNext, lists.nodes`pLink
      ensures lists.Valid() && queues.Valid() && Apart() && Shows(s.(active := s.active[1..]))
      ensures node in lists.nodes && node.pLink == null && node.item == s.active[0]
    {
      node := lists.PopActive();
      queues.Stays();
    }

    // AddTimeout of a popped item; a result other than 0 leaves the item to pfnProcess.
    method FileAgain(node: L.Node, now: nat, ghost s: Loop) returns (ret: int)
      requires lists.Valid() && queues.Valid() && Apart() && Shows(s) && 0 < now
      requires node in lists.nodes && node.pLink == null
      modifies lists.pTimeout`ullStart, lists.pTimeout`llStartIdx, lists.pTimeout`start
      modifies lists.pTimeout`wheel, lists.pTimeout`contents, lists.pTimeout`repr
      modifies lists.pTimeout.lists`head, lists.pTimeout.lists`tail, lists.pTimeout.lists`nodes
      modifies lists.nodes`pNext, node`pPrev, node`pLink
      ensures lists.Valid() && queues.Valid() && Apart() && Shows(s.(wheel := lists.Wheel()))
      ensures T.AddTimeout(s.wheel, node.item, now) == (lists.Wheel(), ret) && (ret != 0 ==> node.pLink == null)
    {
      ret := FileKnown(node, now, s.used, s);
    }

    // bTimeout = false
    method ClearFlag(node: L.Node, ghost s: Loop)
      requires lists.Valid() && queues.Valid() && Apart() && Shows(s) && node in lists.nodes
      modifies node`bTimeout
      ensures lists.Valid() && queues.Valid() && Apart() && Shows(s.(flagged := s.flagged - {node.item}))
    {
      node.bTimeout := false;
    }

    // pfnProcess up to the point where the resumed coroutine is back in its own code: it takes its
    // condition item out of the queue and frees the wait. The poll's own item has been popped, so the
    // RemoveFromLink of co_poll_inner finds it in no list.
    method ProcessItem(node: L.Node, ghost s: Loop)
      requires lists.Valid() && queues.Valid() && Apart() && Shows(s) && node in lists.nodes && node.pLink == null
      modifies this`loop, lists`nodes, queues`psis, queues`contents, queues`nodes
      modifies queues.conds`head, queues.conds`tail, queues.conds`nodes
      modifies queues.nodes`pPrev, queues.nodes`pNext, queues.nodes`pLink
      ensures Valid() && loop == Process(s, node.item)
      ensures lists.nodes <= old(lists.nodes) && queues.nodes <= old(queues.nodes)
      ensures forall n | n in old(lists.nodes) && n.item != node.item :: n in lists.nodes
    {
      LeaveQueueOf(node, s.queues);
      Free(node, s);
    }

    method LeaveQueueOf(node: L.Node, ghost was: map<nat, seq<Item>>)
      requires lists.Valid() && queues.Valid() && Apart() && SameQueues(was, queues.contents)
      requires Paired(lists.nodes, queues.psis) && node in lists.nodes
      modifies queues`psis, queues`contents, queues`nodes
      modifies queues.conds`head, queues.conds`tail, queues.conds`nodes
      modifies queues.nodes`pPrev, queues.nodes`pNext, queues.nodes`pLink
      ensures lists.Valid() && queues.Valid() && Apart() && Paired(lists.nodes - {node}, queues.psis)
      ensures queues.nodes <= old(queues.nodes)
      ensures var x := node.item;
              SameQueues(if x.kind.Cond? then was[x.kind.cond := Drop(QueueIn(was, x.kind.cond), x)] else was,
                         queues.contents)
    {
      PairedLess(lists.nodes, queues.psis, node);
      if node.item.kind.Cond? {
        LeaveQueue(node.item, was);
      }
    }

    method LeaveQueue(x: Item, ghost was: map<nat, seq<Item>>)
      requires lists.Valid() && queues.Valid() && Apart() && SameQueues(was, queues.contents)
      requires x in queues.psis && x.kind.Cond?
      modifies queues`psis, queues`contents, queues`nodes
      modifies queues.conds`head, queues.conds`tail, queues.conds`nodes
      modifies queues.nodes`pPrev, queues.nodes`pNext, queues.nodes`pLink
      ensures lists.Valid() && queues.Valid() && Apart() && queues.psis == old(queues.psis) - {x}
      ensures queues.nodes <= old(queues.nodes)
      ensures SameQueues(was[x.kind.cond := Drop(QueueIn(was, x.kind.cond), x)], queues.contents)
    {
      queues.Leave(x);
      lists.Stays();
    }

    // The timeout item goes with its wait.
    ghost method Free(node: L.Node, s: Loop)
      requires lists.Valid() && queues.Valid() && Apart() && node in lists.nodes && node.pLink == null
      requires s.wheel == lists.Wheel() && |s.wheel.slots| > 0 && s.active == lists.Active()
      requires SameQueues(Process(s, node.item).queues, queues.contents)
      requires Told(lists.nodes, s.used, s.flagged, s.detached) && s.flagged <= s.used && s.detached <= s.used
      requires Paired(lists.nodes - {node}, queues.psis)
      modifies this`loop, lists`nodes
      ensures Valid() && loop == Process(s, node.item) && lists.nodes == old(lists.nodes) - {node}
    {
      lists.Forget(node);
      Follow(Process(s, node.item));
    }

    // The active list is empty: the turn is over.
    ghost method EndTurn()
      requires Valid() && loop.active == []
      modifies this`loop
      ensures Valid() && loop == EndDrain(old(loop))
    {
      Follow(EndDrain(loop));
    }

    // co_cond_pop
    method CondPop(c: nat, ghost s: Loop) returns (sp: L.Node?)
      requires lists.Valid() && queues.Valid() && Apart() && Shows(s) && c < |queues.conds|
      modifies queues`contents, queues.conds`head, queues.conds`tail, queues.conds`nodes
      modifies queues.nodes`pPrev, queues.nodes`pNext, queues.nodes`pLink
      ensures lists.Valid() && queues.Valid() && Apart() && Shows(Dequeued(s, c))
      ensures sp == null <==> Queue(s, c) == []
      ensures sp != null ==> sp.timeout != null && sp.timeout in lists.nodes && sp.timeout.item == Queue(s, c)[0]
    {
      sp := PopWaiter(c, s.queues);
    }

    method PopWaiter(c: nat, ghost was: map<nat, seq<Item>>) returns (sp: L.Node?)
      requires lists.Valid() && queues.Valid() && Apart() && Paired(lists.nodes, queues.psis)
      requires SameQueues(was, queues.contents) && c < |queues.conds|
      modifies queues`contents, queues.conds`head, queues.conds`tail, queues.conds`nodes
      modifies queues.nodes`pPrev, queues.nodes`pNext, queues.nodes`pLink
      ensures lists.Valid() && queues.Valid() && Apart()
      ensures sp == null <==> QueueIn(was, c) == []
      ensures sp == null ==> SameQueues(was, queues.contents)
      ensures sp != null ==>
                && SameQueues(was[c := QueueIn(was, c)[1..]], queues.contents)
                && sp.timeout != null && sp.timeout in lists.nodes && sp.timeout.item == QueueIn(was, c)[0]
    {
      ghost var contents := queues.contents;
      sp := PopQueue(c);
      if sp != null {
        Popped(was, contents, c);
      }
    }

    method PopQueue(c: nat) returns (p: L.Node?)
      requires lists.Valid() && queues.Valid() && Apart() && c < |queues.conds|
      modifies queues`contents, {queues.conds[c]}`head, {queues.conds[c]}`tail, {queues.conds[c]}`nodes
      modifies queues.nodes`pPrev, queues.nodes`pNext, queues.nodes`pLink
      ensures lists.Valid() && queues.Valid() && (p == null <==> Q.QueueOf(old(queues.contents), c) == [])
      ensures p == null ==> queues.contents == old(queues.contents)
      ensures p != null ==>
                && p in queues.nodes && p.item == Q.QueueOf(old(queues.contents), c)[0]
                && queues.contents == old(queues.contents)[c := old(queues.contents)[c][1..]]
    {
      p := queues.Pop(c);
      lists.Stays();
    }

    method CondSignal(c: nat) returns (found: bool)
      requires Valid() && c < |queues.conds|
      modifies this`loop, queues`contents, queues.conds`head, queues.conds`tail, queues.conds`nodes
      modifies queues.nodes`pPrev, queues.nodes`pNext, queues.nodes`pLink
      modifies lists.pTimeout`wheel, lists.pTimeout`contents, lists.pTimeout`repr
      modifies lists.pTimeout.lists`head, lists.pTimeout.lists`tail, lists.pTimeout.lists`nodes
      modifies lists.pstActiveList`head, lists.pstActiveList`tail, lists.pstActiveList`nodes
      modifies lists.nodes`pPrev, lists.nodes`pNext, lists.nodes`pLink
      ensures Valid() && loop == Signal(old(loop), c) && (found <==> Queue(old(loop), c) != [])
    {
      var sp := CondPop(c, loop);
      found := sp != null;
      if found {
        Wake(sp.timeout, Dequeued(loop, c));
      }
    }

    // RemoveFromLink and AddTail for the timeout item of the waiter.
    method Wake(ap: L.Node, ghost s: Loop)
      requires lists.Valid() && queues.Valid() && Apart() && Shows(s) && ap in lists.nodes
      modifies this`loop, lists.pTimeout`wheel, lists.pTimeout`contents, lists.pTimeout`repr
      modifies lists.pTimeout.lists`head, lists.pTimeout.lists`tail, lists.pTimeout.lists`nodes
      modifies lists.pstActiveList`head, lists.pstActiveList`tail, lists.pstActiveList`nodes
      modifies lists.nodes`pPrev, lists.nodes`pNext, lists.nodes`pLink
      ensures Valid() && loop == Activate(s, ap.item)
    {
      MoveToActive(ap, s);
      Follow(Activate(s, ap.item));
    }

    // The endless loop of co_cond_broadcast ends because every turn shortens the queue.
    method CondBroadcast(c: nat)
      requires Valid() && c < |queues.conds|
      modifies this`loop, queues`contents, queues.conds`head, queues.conds`tail, queues.conds`nodes
      modifies queues.nodes`pPrev, queues.nodes`pNext, queues.nodes`pLink
      modifies lists.pTimeout`wheel, lists.pTimeout`contents, lists.pTimeout`repr
      modifies lists.pTimeout.lists`head, lists.pTimeout.lists`tail, lists.pTimeout.lists`nodes
      modifies lists.pstActiveList`head, lists.pstActiveList`tail, lists.pstActiveList`nodes
      modifies lists.nodes`pPrev, lists.nodes`pNext, lists.nodes`pLink
      ensures Valid() && loop == Broadcast(old(loop), c)
      ensures Inv(old(loop)) ==>
                var q := Queue(old(loop), c); lists.Active() == Rest(old(lists.Active()), q) + q
    {
      ghost var was := loop;
      var found := true;
      while found
        invariant Valid() && Broadcast(loop, c) == Broadcast(old(loop), c)
        invariant !found ==> Queue(loop, c) == []
        decreases found, |Queue(loop, c)|
      {
        found := CondSignal(c);
      }
      if Inv(was) {
        BroadcastInOrder(was, c);
      }
    }

    // co_cond_alloc
    method CondAlloc() returns (c: nat)
      requires Valid()
      modifies queues`conds, queues`contents
      ensures Valid() && c == old(|queues.conds|) && |queues.conds| == c + 1 && Queue(loop, c) == []
      ensures forall l | l in queues.conds :: l in old(queues.conds) || fresh(l)
    {
      c := queues.Alloc();
      lists.Stays();
    }

    // The timeout item of a new wait, in no list and unflagged.
    ghost predicate Fresh(node: L.Node, used: set<Item>)
      reads lists, queues, node
    {
      && node.pLink == null && !node.bTimeout && !node.detached && node.item !in used
      && node !in lists.nodes && node !in queues.nodes
    }

    // AddTimeout for a new wait; when it fails the item is freed again.
    method FileNew(node: L.Node, now: nat, ghost s: Loop) returns (ret: int)
      requires lists.Valid() && queues.Valid() && Apart() && Shows(s) && Fresh(node, s.used) && 0 < now
      modifies lists`nodes
      modifies lists.pTimeout`ullStart, lists.pTimeout`llStartIdx, lists.pTimeout`start
      modifies lists.pTimeout`wheel, lists.pTimeout`contents, lists.pTimeout`repr
      modifies lists.pTimeout.lists`head, lists.pTimeout.lists`tail, lists.pTimeout.lists`nodes
      modifies lists.nodes`pNext, node`pNext, node`pPrev, node`pLink
      ensures lists.Valid() && queues.Valid() && Apart()
      ensures T.AddTimeout(s.wheel, node.item, now) == (lists.Wheel(), ret) && lists.Active() == s.active
      ensures lists.nodes == old(lists.nodes) + if ret == 0 then {node} else {}
      ensures Told(lists.nodes, if ret == 0 then s.used + {node.item} else s.used, s.flagged, s.detached)
    {
      Register(node, s);
      ret := FileOrFree(node, now, s);
    }

    method FileOrFree(node: L.Node, now: nat, ghost s: Loop) returns (ret: int)
      requires lists.Valid() && queues.Valid() && Apart() && 0 < now && node in lists.nodes && node.pLink == null
      requires Told(lists.nodes, s.used + {node.item}, s.flagged, s.detached)
      modifies lists`nodes
      modifies lists.pTimeout`ullStart, lists.pTimeout`llStartIdx, lists.pTimeout`start
      modifies lists.pTimeout`wheel, lists.pTimeout`contents, lists.pTimeout`repr
      modifies lists.pTimeout.lists`head, lists.pTimeout.lists`tail, lists.pTimeout.lists`nodes
      modifies lists.nodes`pNext, node`pPrev, node`pLink
      ensures lists.Valid() && queues.Valid() && Apart()
      ensures T.AddTimeout(old(lists.Wheel()), node.item, now) == (lists.Wheel(), ret)
      ensures lists.Active() == old(lists.Active())
      ensures lists.nodes == if ret == 0 then old(lists.nodes) else old(lists.nodes) - {node}
      ensures Told(lists.nodes, if ret == 0 then s.used + {node.item} else s.used, s.flagged, s.detached)
    {
      ret := FileKnown(node, now, s.used + {node.item}, s);
      if ret != 0 {
        Unregister(node, s);
      }
    }

    method FileKnown(node: L.Node, now: nat, ghost used: set<Item>, ghost s: Loop) returns (ret: int)
      requires lists.Valid() && queues.Valid() && Apart() && 0 < now && node in lists.nodes && node.pLink == null
      requires Told(lists.nodes, used, s.flagged, s.detached)
      modifies lists.pTimeout`ullStart, lists.pTimeout`llStartIdx, lists.pTimeout`start
      modifies lists.pTimeout`wheel, lists.pTimeout`contents, lists.pTimeout`repr
      modifies lists.pTimeout.lists`head, lists.pTimeout.lists`tail, lists.pTimeout.lists`nodes
      modifies lists.nodes`pNext, node`pPrev, node`pLink
      ensures lists.Valid() && queues.Valid() && Told(lists.nodes, used, s.flagged, s.detached)
      ensures T.AddTimeout(old(lists.Wheel()), node.item, now) == (lists.Wheel(), ret)
      ensures lists.Active() == old(lists.Active()) && (ret != 0 ==> node.pLink == null)
    {
      ret := lists.AddTimeout(node, now);
      queues.Stays();
    }

    ghost method Unregister(node: L.Node, s: Loop)
      requires lists.Valid() && queues.Valid() && Apart() && node in lists.nodes && node.pLink == null
      requires Told(lists.nodes, s.used + {node.item}, s.flagged, s.detached)
      modifies lists`nodes
      ensures lists.Valid() && queues.Valid() && Apart() && lists.nodes == old(lists.nodes) - {node}
      ensures Told(lists.nodes, s.used, s.flagged, s.detached)
    {
      lists.Forget(node);
    }

    ghost method Register(node: L.Node, s: Loop)
      requires lists.Valid() && queues.Valid() && Apart() && Shows(s) && Fresh(node, s.used)
      modifies lists`nodes
      ensures lists.Valid() && queues.Valid() && Apart() && lists.nodes == old(lists.nodes) + {node}
      ensures Told(lists.nodes, s.used + {node.item}, s.flagged, s.detached)
    {
      lists.Register(node);
    }

    // AddTail of the new condition item to its queue.
    method EnterQueue(psi: L.Node, ghost s: Loop)
      requires lists.Valid() && queues.Valid() && Apart() && SameQueues(s.queues, queues.contents)
      requires Told(lists.nodes, s.used + {psi.item}, s.flagged, s.detached)
      requires Q.PsiValid(psi.item, psi, |queues.conds|) && psi.item !in queues.psis
      requires psi.pLink == null && psi !in lists.nodes && psi !in queues.nodes
      modifies queues`psis, queues`contents, queues`nodes
      modifies queues.conds`head, queues.conds`tail, queues.conds`nodes
      modifies queues.nodes`pNext, psi`pPrev, psi`pNext, psi`pLink
      ensures lists.Valid() && queues.Valid() && Apart() && queues.psis == old(queues.psis)[psi.item := psi]
      ensures queues.nodes == old(queues.nodes) + {psi}
      ensures Told(lists.nodes, s.used + {psi.item}, s.flagged, s.detached)
      ensures var c := psi.item.kind.cond;
              SameQueues(s.queues[c := QueueIn(s.queues, c) + [psi.item]], queues.contents)
    {
      ghost var contents := queues.contents;
      queues.Wait(psi);
      lists.Stays();
      Pushed(s.queues, contents, psi);
    }

    // co_poll_inner from AddTimeout to the yield. `arg` is what epoll_ctl has been given as data.ptr.
    method PollInner(x: Item, now: nat) returns (ret: int, arg: L.Node)
      requires Valid() && 0 < now && x.kind.Poll? && x !in loop.used
      modifies this`loop, lists`nodes
      modifies lists.pTimeout`ullStart, lists.pTimeout`llStartIdx, lists.pTimeout`start
      modifies lists.pTimeout`wheel, lists.pTimeout`contents, lists.pTimeout`repr
      modifies lists.pTimeout.lists`head, lists.pTimeout.lists`tail, lists.pTimeout.lists`nodes
      modifies lists.nodes`pNext
      ensures Valid() && loop == PollWait(old(loop), x, now) && ret == FileItem(old(loop), x, now).1
      ensures old(lists.nodes) <= lists.nodes && fresh(lists.nodes - old(lists.nodes))
      ensures arg.item == x && (ret == 0 ==> arg in lists.nodes)
    {
      arg := new L.Node(x, null);
      ret := PollWith(arg, now, loop);
    }

    method PollWith(arg: L.Node, now: nat, ghost s: Loop) returns (ret: int)
      requires lists.Valid() && queues.Valid() && Apart() && Shows(s) && Fresh(arg, s.used) && 0 < now
      requires arg.item.kind.Poll?
      modifies this`loop, lists`nodes
      modifies lists.pTimeout`ullStart, lists.pTimeout`llStartIdx, lists.pTimeout`start
      modifies lists.pTimeout`wheel, lists.pTimeout`contents, lists.pTimeout`repr
      modifies lists.pTimeout.lists`head, lists.pTimeout.lists`tail, lists.pTimeout.lists`nodes
      modifies lists.nodes`pNext, arg`pNext, arg`pPrev, arg`pLink
      ensures Valid() && loop == PollWait(s, arg.item, now) && ret == FileItem(s, arg.item, now).1
      ensures lists.nodes == old(lists.nodes) + if ret == 0 then {arg} else {}
    {
      ret := FileNew(arg, now, s);
      Follow(PollWait(s, arg.item, now));
    }

    // co_cond_timedwait up to the yield; a result other than 0 means that the caller does not wait.
    method CondTimedWait(x: Item, now: nat) returns (ret: int)
      requires Valid() && 0 < now && x.kind.Cond? && x.kind.cond < |queues.conds| && x !in loop.used
      modifies this`loop, lists`nodes
      modifies lists.pTimeout`ullStart, lists.pTimeout`llStartIdx, lists.pTimeout`start
      modifies lists.pTimeout`wheel, lists.pTimeout`contents, lists.pTimeout`repr
      modifies lists.pTimeout.lists`head, lists.pTimeout.lists`tail, lists.pTimeout.lists`nodes
      modifies lists.nodes`pNext
      modifies queues`psis, queues`contents, queues`nodes
      modifies queues.conds`head, queues.conds`tail, queues.conds`nodes, queues.nodes`pNext
      ensures Valid() && loop == CondWait(old(loop), x, now)
      ensures ret == if x.kind.timed then FileItem(old(loop), x, now).1 else 0
      ensures old(lists.nodes) <= lists.nodes && fresh(lists.nodes - old(lists.nodes))
      ensures fresh(queues.nodes - old(queues.nodes))
    {
      var timeout := new L.Node(x, null);
      var psi := new L.Node(x, timeout);
      ret := WaitWith(psi, now, loop);
    }

    method WaitWith(psi: L.Node, now: nat, ghost s: Loop) returns (ret: int)
      requires lists.Valid() && queues.Valid() && Apart() && Shows(s) && 0 < now
      requires Q.PsiValid(psi.item, psi, |queues.conds|) && psi.timeout.item == psi.item && psi != psi.timeout
      requires Fresh(psi, s.used) && Fresh(psi.timeout, s.used)
      modifies this`loop, lists`nodes
      modifies lists.pTimeout`ullStart, lists.pTimeout`llStartIdx, lists.pTimeout`start
      modifies lists.pTimeout`wheel, lists.pTimeout`contents, lists.pTimeout`repr
      modifies lists.pTimeout.lists`head, lists.pTimeout.lists`tail, lists.pTimeout.lists`nodes
      modifies lists.nodes`pNext, {psi.timeout}`pNext, {psi.timeout}`pPrev, {psi.timeout}`pLink
      modifies queues`psis, queues`contents, queues`nodes
      modifies queues.conds`head, queues.conds`tail, queues.conds`nodes, queues.nodes`pNext
      modifies psi`pPrev, psi`pNext, psi`pLink
      ensures Valid() && loop == CondWait(s, psi.item, now) && ret == Filed(s, psi.item, now).1
      ensures lists.nodes == old(lists.nodes) + if ret == 0 then {psi.timeout} else {}
      ensures queues.nodes == old(queues.nodes) + if ret == 0 then {psi} else {}
    {
      var timeout := psi.timeout;
      NewHasNoPsi(lists.nodes, queues.psis, s.used, psi.item);
      ret := FileTimed(timeout, now, s);
      assert lists.nodes - {timeout} == old(lists.nodes);
      EndWait(psi, ret, s, now);
    }

    // With a result other than 0 the caller goes on, otherwise it waits.
    method EndWait(psi: L.Node, ret: int, ghost s: Loop, now: nat)
      requires lists.Valid() && queues.Valid() && Apart() && SameQueues(s.queues, queues.contents)
      requires Q.PsiValid(psi.item, psi, |queues.conds|) && psi.item !in queues.psis
      requires psi.pLink == null && psi !in lists.nodes && psi !in queues.nodes
      requires psi.timeout in lists.nodes <==> ret == 0
      requires psi.timeout.item == psi.item && Paired(lists.nodes - {psi.timeout}, queues.psis)
      requires |s.wheel.slots| > 0 && Filed(s, psi.item, now) == (lists.Wheel(), ret) && lists.Active() == s.active
      requires Told(lists.nodes, if ret == 0 then s.used + {psi.item} else s.used, s.flagged, s.detached)
      requires s.flagged <= s.used && s.detached <= s.used
      modifies this`loop, queues`psis, queues`contents, queues`nodes
      modifies queues.conds`head, queues.conds`tail, queues.conds`nodes
      modifies queues.nodes`pNext, psi`pPrev, psi`pNext, psi`pLink
      ensures Valid() && loop == CondWait(s, psi.item, now)
      ensures queues.nodes == old(queues.nodes) + if ret == 0 then {psi} else {}
    {
      if ret != 0 {
        assert lists.nodes - {psi.timeout} == lists.nodes;
        Refuse(s, psi.item, now);
      } else {
        Suspend(psi, s, now);
      }
    }

    // The deadline could not be filed: the caller goes on.
    ghost method Refuse(s: Loop, x: Item, now: nat)
      requires lists.Valid() && queues.Valid() && Apart() && x.kind.Cond?
      requires |s.wheel.slots| > 0 && Filed(s, x, now).0 == lists.Wheel() && Filed(s, x, now).1 != 0
      requires lists.Active() == s.active && SameQueues(s.queues, queues.contents)
      requires Told(lists.nodes, s.used, s.flagged, s.detached) && Paired(lists.nodes, queues.psis)
      requires s.flagged <= s.used && s.detached <= s.used
      modifies this`loop
      ensures Valid() && loop == CondWait(s, x, now)
    {
      CondWaitIs(s, x, now);
      Follow(CondWait(s, x, now));
    }

    // The caller is in its queue and yields.
    method Suspend(psi: L.Node, ghost s: Loop, now: nat)
      requires lists.Valid() && queues.Valid() && Apart() && SameQueues(s.queues, queues.contents)
      requires Q.PsiValid(psi.item, psi, |queues.conds|) && psi.item !in queues.psis
      requires psi.pLink == null && psi !in lists.nodes && psi !in queues.nodes
      requires psi.timeout in lists.nodes && psi.timeout.item == psi.item
      requires Paired(lists.nodes - {psi.timeout}, queues.psis)
      requires |s.wheel.slots| > 0 && Filed(s, psi.item, now) == (lists.Wheel(), 0) && lists.Active() == s.active
      requires Told(lists.nodes, s.used + {psi.item}, s.flagged, s.detached)
      requires s.flagged <= s.used && s.detached <= s.used
      modifies this`loop, queues`psis, queues`contents, queues`nodes
      modifies queues.conds`head, queues.conds`tail, queues.conds`nodes
      modifies queues.nodes`pNext, psi`pPrev, psi`pNext, psi`pLink
      ensures Valid() && loop == CondWait(s, psi.item, now) && queues.nodes == old(queues.nodes) + {psi}
    {
      PairedMore(lists.nodes, queues.psis, psi.timeout, psi);
      EnterQueue(psi, s);
      CondWaitIs(s, psi.item, now);
      Follow(CondWait(s, psi.item, now));
    }

    // The timeout of the wait, if there is one.
    method FileTimed(node: L.Node, now: nat, ghost s: Loop) returns (ret: int)
      requires lists.Valid() && queues.Valid() && Apart() && Shows(s) && Fresh(node, s.used) && 0 < now
      requires node.item.kind.Cond?
      modifies lists`nodes
      modifies lists.pTimeout`ullStart, lists.pTimeout`llStartIdx, lists.pTimeout`start
      modifies lists.pTimeout`wheel, lists.pTimeout`contents, lists.pTimeout`repr
      modifies lists.pTimeout.lists`head, lists.pTimeout.lists`tail, lists.pTimeout.lists`nodes
      modifies lists.nodes`pNext, node`pNext, node`pPrev, node`pLink
      ensures lists.Valid() && queues.Valid() && Apart()
      ensures Filed(s, node.item, now) == (lists.Wheel(), ret) && lists.Active() == s.active
      ensures lists.nodes == old(lists.nodes) + if ret == 0 then {node} else {}
      ensures Told(lists.nodes, if ret == 0 then s.used + {node.item} else s.used, s.flagged, s.detached)
    {
      if node.item.kind.timed {
        ret := FileNew(node, now, s);
      } else {
        Register(node, s);
        ret := 0;
      }
    }

    // The items of the active list belong to waits that were entered.
    lemma ActiveIsUsed(used: set<Item>)
      requires lists.Valid() && forall n | n in lists.nodes :: n.item in used
      ensures forall x | x in lists.Active() :: x in used
    {
      forall x | x in lists.Active() ensures x in used {
        var k :| 0 <= k < |lists.Active()| && lists.Active()[k] == x;
        assert lists.pstActiveList.nodes[k] in lists.nodes;
      }
    }
  }

  lemma ReadyIs(s: Loop, x: Item)
    requires x !in s.detached
    ensures var s' := EventReady(s, x);
            && s'.wheel == T.Remove(s.wheel, x) && s'.active == Drop(s.active, x) + [x] && s'.queues == s.queues
            && s'.used == s.used && s'.flagged == s.flagged && s'.detached == s.detached + {x}
  {
  }

  lemma TakeShows(s: Loop, now: nat)
    requires |s.wheel.slots| > 0
    ensures var s' := Take(s, now);
            var (wheel, taken) := T.TakeAllTimeout(s.wheel, now);
            && |s'.wheel.slots| > 0 && s'.wheel == wheel && s'.active == s.active + taken && s'.queues == s.queues
            && s'.used == s.used && s'.detached == s.detached
            && forall x :: x in s'.flagged <==> x in s.flagged || x in taken
  {
  }

  lemma DrainRefiles(s: Loop, wheel: T.Wheel)
    requires |s.wheel.slots| > 0 && s.phase.Draining? && s.active != [] && IsEarly(s, s.active[0], s.phase.now)
    requires T.AddTimeout(s.wheel, s.active[0], s.phase.now) == (wheel, 0)
    ensures var s' := Drain(s);
            && s'.wheel == wheel && s'.active == s.active[1..] && s'.queues == s.queues && s'.used == s.used
            && s'.flagged == s.flagged - {s.active[0]} && s'.detached == s.detached && s'.resumed == s.resumed
  {
  }

  lemma DrainResumes(s: Loop, wheel: T.Wheel)
    requires |s.wheel.slots| > 0 && s.phase.Draining? && s.active != []
    requires var (filed, ret) := T.AddTimeout(s.wheel, s.active[0], s.phase.now);
             if IsEarly(s, s.active[0], s.phase.now) then wheel == filed && ret != 0 else wheel == s.wheel
    ensures Drain(s) == Process(s.(active := s.active[1..], wheel := wheel), s.active[0])
  {
  }

  lemma NeverWraps(s: Loop, now: nat)
    requires |s.wheel.slots| > 0 && GapFits(s, now)
    ensures !T.WrapsToZero(T.Started(s.wheel, now), now)
  {
  }
}

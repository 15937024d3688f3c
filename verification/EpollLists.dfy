/** The lists of stCoEpoll_t over one set of timeout items: the timing wheel, the active list and the
    timeout list. An item is moved between them through its own owner pointer. */
module EpollLists {
  import opened Sequences
  import opened TimeoutItem
  import opened IntrusiveList
  import opened ListFamily
  import W = WheelArray
  import T = TimingWheel

  // Different nodes of the set stand for different waits.
  ghost predicate Distinct(nodes: set<Node>) {
    forall n | n in nodes :: NodeOf(nodes, n.item) == n
  }

  ghost function NodeOf(nodes: set<Node>, x: Item): (r: Node?)
    ensures r != null ==> r in nodes && r.item == x
  {
    if exists n | n in nodes :: n.item == x then (var n :| n in nodes && n.item == x; n) else null
  }

  // An unlinked node is fine; a linked one is in the wheel or in one of the two lists.
  ghost predicate Placed(nodes: set<Node>, filed: set<Node>, listed: seq<Node>)
    reads nodes`pLink
  {
    forall n | n in nodes && n.pLink != null :: n in filed || n in listed
  }

  lemma BothOutside(a: seq<Node>, b: seq<Node>, filed: set<Node>, all: set<Node>)
    requires Outside(a, filed) && Outside(b, filed) && Within(a, all) && Within(b, all)
    ensures Outside(a + b, filed) && Within(a + b, all) && a + b + [] == a + b
  {
  }

  lemma ItemsAbsent(nodes: seq<Node>, all: set<Node>, ap: Node)
    requires Within(nodes, all) && Distinct(all) && ap in all && ap !in nodes
    ensures Drop(ItemsOf(nodes), ap.item) == ItemsOf(nodes)
  {
    DropAbsent(ItemsOf(nodes), ap.item);
  }

  ghost predicate SameBut(nodes: seq<Node>, nodes': seq<Node>, ap: Node) {
    forall n | n in nodes :: n == ap || n in nodes'
  }

  lemma ItemsLess(nodes: seq<Node>, all: set<Node>, ap: Node)
    requires Within(nodes, all) && Distinct(all) && ap in nodes
    requires forall i, j | 0 <= i < j < |nodes| :: nodes[i] != nodes[j]
    ensures ItemsOf(Without(nodes, ap)) == Drop(ItemsOf(nodes), ap.item)
  {
    W.ItemsWithout(nodes, ap);
  }

  lemma ItemsTell(nodes: seq<Node>, all: set<Node>, n: Node)
    requires Within(nodes, all) && Distinct(all) && n in all
    ensures n in nodes <==> n.item in ItemsOf(nodes)
  {
    if n in nodes {
      var k := IndexOf(nodes, n);
      assert ItemsOf(nodes)[k] == n.item;
    }
    if n.item in ItemsOf(nodes) {
      var k :| 0 <= k < |nodes| && ItemsOf(nodes)[k] == n.item;
      assert nodes[k] in nodes;
    }
  }

  // An item that no slot holds is not dropped from any.
  lemma RemoveAbsent(w: T.Wheel, start: nat, contents: seq<seq<Node>>, all: set<Node>, ap: Node)
    requires W.Shows(w.slots, start, contents) && Members(contents) <= all && Distinct(all)
    requires ap in all && ap !in Members(contents)
    ensures T.Remove(w, ap.item) == w
  {
    forall k | 0 <= k < |w.slots| ensures Drop(w.slots[k], ap.item) == w.slots[k] {
      var nodes := contents[W.Around(start, k, |contents|)];
      assert ItemsOf(nodes) == w.slots[k];
      forall n | n in nodes ensures n in all && n != ap {
        HasMember(contents, W.Around(start, k, |contents|), n);
      }
      ItemsAbsent(nodes, all, ap);
    }
    assert DropEach(w.slots, ap.item) == w.slots;
  }

  ghost predicate Outside(nodes: seq<Node>, filed: set<Node>) {
    forall n | n in nodes :: n !in filed
  }

  class EpollLists {
    const pTimeout: W.Timeout
    const pstActiveList: Link
    const pstTimeoutList: Link
    ghost var nodes: set<Node>   // the timeout items of the suspended coroutines

    ghost predicate Valid()
      reads this, pTimeout, pTimeout.pItems, pTimeout.lists, pstActiveList, pstTimeoutList
      reads nodes`pPrev, nodes`pNext, nodes`pLink
    {
      TurnValid() && pstTimeoutList.nodes == []
    }

    // What also holds in the middle of a turn, while the timeout list is in use.
    ghost predicate TurnValid()
      reads this, pTimeout, pTimeout.pItems, pTimeout.lists, pstActiveList, pstTimeoutList
      reads nodes`pPrev, nodes`pNext, nodes`pLink
    {
      && pTimeout.repr <= nodes && pTimeout.Valid() && Separate()
      && Within(pstActiveList.nodes, nodes) && pstActiveList.Valid() && Outside(pstActiveList.nodes, pTimeout.repr)
      && Within(pstTimeoutList.nodes, nodes) && pstTimeoutList.Valid() && Outside(pstTimeoutList.nodes, pTimeout.repr)
      && Placed(nodes, pTimeout.repr, pstActiveList.nodes + pstTimeoutList.nodes) && Distinct(nodes)
    }

    ghost predicate Separate() {
      pstActiveList !in pTimeout.lists && pstTimeoutList !in pTimeout.lists && pstActiveList != pstTimeoutList
    }

    ghost function Wheel(): T.Wheel
      reads pTimeout
    {
      pTimeout.wheel
    }

    ghost function Active(): seq<Item>
      reads pstActiveList
    {
      ItemsOf(pstActiveList.nodes)
    }

    constructor (pTimeout: W.Timeout, active: Link, timeout: Link)
      requires pTimeout.Valid() && pTimeout.repr == {}
      requires active.Valid() && active.nodes == [] && timeout.Valid() && timeout.nodes == []
      requires active != timeout && active !in pTimeout.lists && timeout !in pTimeout.lists
      ensures Valid() && nodes == {} && Active() == [] && Wheel() == pTimeout.wheel
      ensures this.pTimeout == pTimeout && pstActiveList == active && pstTimeoutList == timeout
    {
      this.pTimeout, pstActiveList, pstTimeoutList, nodes := pTimeout, active, timeout, {};
    }

    twostate lemma Stays()
      requires old(Valid()) && unchanged(this) && unchanged(pTimeout) && unchanged(pTimeout.pItems)
      requires unchanged(pstActiveList) && unchanged(pstTimeoutList) && forall l | l in pTimeout.lists :: unchanged(l)
      requires forall n | n in nodes :: unchanged(n`pPrev, n`pNext, n`pLink)
      ensures Valid()
    {
      forall n | n in pTimeout.repr ensures unchanged(n`pPrev, n`pNext, n`pLink) {
        assert n in nodes;
      }
      pTimeout.Stays();
    }

    // ---- One item ------------------------------------------------------------------------------

    // An unlinked item is in no slot and not active.
    lemma Unfiled(ap: Node)
      requires Valid() && ap in nodes && ap.pLink == null
      ensures T.Remove(Wheel(), ap.item) == Wheel() && Drop(Active(), ap.item) == Active()
      ensures ap !in pTimeout.repr && ap !in pstActiveList.nodes
    {
      if ap in pTimeout.repr {
        pTimeout.Owned(ap);
      }
      RemoveAbsent(Wheel(), pTimeout.start, pTimeout.contents, nodes, ap);
      ItemsAbsent(pstActiveList.nodes, nodes, ap);
    }

    // The one list of the item, as an argument of TakeOff: among the slots, or the active list.
    ghost function Home(ap: Node): (home: (seq<Link>, seq<seq<Node>>, nat, set<Node>))
      requires Valid() && ap in nodes && ap.pLink != null
      reads this, pTimeout, pTimeout.pItems, pTimeout.lists, pstActiveList, pstTimeoutList
      reads nodes`pPrev, nodes`pNext, nodes`pLink
      ensures home.2 < |home.0| == |home.1| && ap in home.1[home.2] && Family(home.0, home.1, home.3)
    {
      if ap in pTimeout.repr then (pTimeout.lists, pTimeout.contents, pTimeout.IndexIn(ap), pTimeout.repr)
      else ([pstActiveList], [pstActiveList.nodes], 0, set n | n in pstActiveList.nodes)
    }

    // RemoveFromLink: by its own owner pointer the item leaves the slot or the active list.
    method Unlink(ap: Node)
      requires Valid() && ap in nodes && ap.pLink != null
      modifies pTimeout`wheel, pTimeout`contents, pTimeout`repr
      modifies pTimeout.lists`head, pTimeout.lists`tail, pTimeout.lists`nodes
      modifies pstActiveList`head, pstActiveList`tail, pstActiveList`nodes
      modifies nodes`pPrev, nodes`pNext, ap`pLink
      ensures Valid() && ap.pLink == null
      ensures Wheel() == T.Remove(old(Wheel()), ap.item) && Active() == Drop(old(Active()), ap.item)
    {
      Leaves(ap);
      ghost var filed, idx := ap in pTimeout.repr, if ap in pTimeout.repr then pTimeout.IndexIn(ap) else 0;
      LeaveHome(ap);
      if filed {
        LeftWheel(ap, idx);
      } else {
        LeftActive(ap);
      }
    }

    // The call of RemoveFromLink; the ghost state of the wheel does not follow yet.
    method LeaveHome(ap: Node)
      requires Valid() && ap in nodes && ap.pLink != null
      modifies pTimeout.lists`head, pTimeout.lists`tail, pTimeout.lists`nodes
      modifies pstActiveList`head, pstActiveList`tail, pstActiveList`nodes
      modifies nodes`pPrev, nodes`pNext, ap`pLink
      ensures Around(ap)
      ensures if ap in pTimeout.repr then
                pTimeout.Leaving(ap, old(pTimeout.IndexIn(ap))) && pstActiveList.nodes == old(pstActiveList.nodes)
              else
                pTimeout.Valid() && pstActiveList.nodes == Without(old(pstActiveList.nodes), ap)
    {
      ghost var home := Home(ap);
      Leaves(ap);
      TakeOff(ap, home.0, home.1, home.2, home.3);
      assert ap !in pTimeout.repr ==> Holds(home.0[0], home.1[0 := Without(home.1[0], ap)][0], home.3);
    }

    // Everything but the wheel is as Valid asks, and `ap` is unlinked.
    ghost predicate Around(ap: Node)
      reads this, pTimeout, pstActiveList, pstTimeoutList, nodes`pPrev, nodes`pNext, nodes`pLink
    {
      && pTimeout.repr <= nodes && Separate() && Distinct(nodes)
      && Within(pstActiveList.nodes, nodes) && pstActiveList.Valid() && Outside(pstActiveList.nodes, pTimeout.repr)
      && pstTimeoutList.nodes == [] && pstTimeoutList.Valid()
      && ap in nodes && ap.pLink == null
      && Placed(nodes - {ap}, pTimeout.repr, pstActiveList.nodes)
    }

    ghost method LeftWheel(ap: Node, idx: nat)
      requires Around(ap) && pTimeout.Leaving(ap, idx)
      modifies pTimeout`wheel, pTimeout`contents, pTimeout`repr
      ensures Valid() && Wheel() == T.Remove(old(Wheel()), ap.item)
    {
      pTimeout.TookOff(ap, idx);
    }

    lemma LeftActive(ap: Node)
      requires Around(ap) && pTimeout.Valid()
      ensures Valid()
    {
    }

    // What changes for the wheel and for the active list, seen from before.
    lemma Leaves(ap: Node)
      requires Valid() && ap in nodes && ap.pLink != null
      ensures ap in pTimeout.repr ==>
                && W.Sole(pTimeout.contents, pTimeout.IndexIn(ap), ap)
                && Drop(Active(), ap.item) == Active() && ap !in pstActiveList.nodes
      ensures ap !in pTimeout.repr ==>
                && T.Remove(Wheel(), ap.item) == Wheel() && ap in pstActiveList.nodes
                && ItemsOf(Without(pstActiveList.nodes, ap)) == Drop(Active(), ap.item)
                && SameBut(pstActiveList.nodes, Without(pstActiveList.nodes, ap), ap)
    {
      if ap in pTimeout.repr {
        pTimeout.IsSole(pTimeout.IndexIn(ap), ap);
        ItemsAbsent(pstActiveList.nodes, nodes, ap);
      } else {
        RemoveAbsent(Wheel(), pTimeout.start, pTimeout.contents, nodes, ap);
        ItemsLess(pstActiveList.nodes, nodes, ap);
      }
    }

    // RemoveFromLink on any item: an unlinked one stays as it is.
    method RemoveFromLink(ap: Node)
      requires Valid() && ap in nodes
      modifies pTimeout`wheel, pTimeout`contents, pTimeout`repr
      modifies pTimeout.lists`head, pTimeout.lists`tail, pTimeout.lists`nodes
      modifies pstActiveList`head, pstActiveList`tail, pstActiveList`nodes
      modifies nodes`pPrev, nodes`pNext, ap`pLink
      ensures Valid() && ap.pLink == null
      ensures Wheel() == T.Remove(old(Wheel()), ap.item) && Active() == Drop(old(Active()), ap.item)
    {
      if ap.pLink != null {
        Unlink(ap);
      } else {
        Unfiled(ap);
      }
    }

    // AddTail on the active list.
    method AddActive(ap: Node)
      requires Valid() && ap in nodes && ap.pLink == null
      modifies pstActiveList`head, pstActiveList`tail, pstActiveList`nodes, nodes`pNext, ap`pPrev, ap`pLink
      ensures Valid() && Wheel() == old(Wheel()) && Active() == old(Active()) + [ap.item]
    {
      Unfiled(ap);
      ItemsConcat(pstActiveList.nodes, [ap]);
      AddTail(pstActiveList, ap);
    }

    // RemoveFromLink and AddTail on the active list, as OnPollPreparePfn and co_cond_signal do.
    method MoveToActive(ap: Node)
      requires Valid() && ap in nodes
      modifies pTimeout`wheel, pTimeout`contents, pTimeout`repr
      modifies pTimeout.lists`head, pTimeout.lists`tail, pTimeout.lists`nodes
      modifies pstActiveList`head, pstActiveList`tail, pstActiveList`nodes
      modifies nodes`pPrev, nodes`pNext, nodes`pLink
      ensures Valid()
      ensures Wheel() == T.Remove(old(Wheel()), ap.item) && Active() == Drop(old(Active()), ap.item) + [ap.item]
    {
      RemoveFromLink(ap);
      AddActive(ap);
    }

    // The head of the active list is read and popped.
    method PopActive() returns (lp: Node)
      requires Valid() && Active() != []
      modifies pstActiveList`head, pstActiveList`tail, pstActiveList`nodes, nodes`pPrev, nodes`pNext, nodes`pLink
      ensures Valid() && lp in nodes && lp.pLink == null
      ensures Wheel() == old(Wheel()) && lp.item == old(Active())[0] && Active() == old(Active())[1..]
    {
      lp := pstActiveList.head;
      PopHead(pstActiveList);
    }

    method AddTimeout(ap: Node, allNow: nat) returns (ret: int)
      requires Valid() && ap in nodes && ap.pLink == null && 0 < allNow
      modifies pTimeout`ullStart, pTimeout`llStartIdx, pTimeout`start, pTimeout`wheel, pTimeout`contents, pTimeout`repr
      modifies pTimeout.lists`head, pTimeout.lists`tail, pTimeout.lists`nodes, nodes`pNext, ap`pPrev, ap`pLink
      ensures Valid() && T.AddTimeout(old(Wheel()), ap.item, allNow) == (Wheel(), ret)
      ensures Active() == old(Active()) && (ret != 0 ==> ap.pLink == null)
    {
      Unfiled(ap);
      ghost var listed := pstActiveList.nodes + pstTimeoutList.nodes;
      assert Placed(nodes - {ap}, pTimeout.repr, listed);
      ret := FileIn(ap, allNow);
      assert Placed(nodes - {ap}, pTimeout.repr, listed);
    }

    // The wheel's part of it: the two lists keep the items they have.
    method FileIn(ap: Node, allNow: nat) returns (ret: int)
      requires Valid() && ap in nodes && ap.pLink == null && 0 < allNow
      requires ap !in pTimeout.repr && ap !in pstActiveList.nodes
      modifies pTimeout`ullStart, pTimeout`llStartIdx, pTimeout`start, pTimeout`wheel, pTimeout`contents, pTimeout`repr
      modifies pTimeout.lists`head, pTimeout.lists`tail, pTimeout.lists`nodes, pTimeout.repr`pNext
      modifies ap`pNext, ap`pPrev, ap`pLink
      ensures pTimeout.Valid() && pstActiveList.Valid() && pstTimeoutList.Valid()
      ensures T.AddTimeout(old(Wheel()), ap.item, allNow) == (Wheel(), ret)
      ensures pTimeout.repr == old(pTimeout.repr) + if ret == 0 then {ap} else {}
      ensures ret != 0 ==> ap.pLink == null
    {
      ret := pTimeout.AddTimeout(ap, allNow);
    }

    // Lines 825-836: what is due goes to the timeout list, is flagged there, and joins the active list.
    method TakeTimeouts(now: nat)
      requires Valid() && 0 < now && !T.WrapsToZero(T.Started(Wheel(), now), now)
      modifies pTimeout`ullStart, pTimeout`llStartIdx, pTimeout`start, pTimeout`wheel, pTimeout`contents, pTimeout`repr
      modifies pTimeout.lists`head, pTimeout.lists`tail, pTimeout.lists`nodes
      modifies pstActiveList`head, pstActiveList`tail, pstActiveList`nodes
      modifies pstTimeoutList`head, pstTimeoutList`tail, pstTimeoutList`nodes
      modifies nodes`pPrev, nodes`pNext, nodes`pLink, nodes`bTimeout
      ensures Valid() && Wheel() == T.TakeAllTimeout(old(Wheel()), now).0
      ensures Active() == old(Active()) + T.TakeAllTimeout(old(Wheel()), now).1
      ensures forall n | n in nodes ::
                n.bTimeout <==> old(n.bTimeout) || n.item in T.TakeAllTimeout(old(Wheel()), now).1
    {
      ghost var taken := T.TakeAllTimeout(Wheel(), now).1;
      TakeDue(now);
      FlagTaken();
      assert forall n | n in nodes :: n.bTimeout <==> old(n.bTimeout) || n.item in taken;
      JoinTaken();
    }

    method TakeDue(now: nat)
      requires Valid() && 0 < now && !T.WrapsToZero(T.Started(Wheel(), now), now)
      modifies pTimeout`ullStart, pTimeout`llStartIdx, pTimeout`start, pTimeout`wheel, pTimeout`contents, pTimeout`repr
      modifies pTimeout.lists`head, pTimeout.lists`tail, pTimeout.lists`nodes
      modifies pstTimeoutList`head, pstTimeoutList`tail, pstTimeoutList`nodes
      modifies nodes`pPrev, nodes`pNext, nodes`pLink
      ensures TurnValid() && Wheel() == T.TakeAllTimeout(old(Wheel()), now).0
      ensures ItemsOf(pstTimeoutList.nodes) == T.TakeAllTimeout(old(Wheel()), now).1
    {
      pTimeout.TakeAllTimeout(now, pstTimeoutList);
      forall n | n in pTimeout.repr ensures n.pLink in pTimeout.lists {
        pTimeout.Owned(n);
      }
    }

    // The walk over the timeout list that sets bTimeout.
    method FlagTaken()
      requires TurnValid()
      modifies nodes`bTimeout
      ensures TurnValid()
      ensures forall n | n in nodes ::
                n.bTimeout <==> old(n.bTimeout) || n.item in ItemsOf(pstTimeoutList.nodes)
    {
      ghost var taken := pstTimeoutList.nodes;
      var lp := pstTimeoutList.head;
      ghost var k := 0;
      while lp != null
        invariant 0 <= k <= |taken| && lp == (if k < |taken| then taken[k] else null)
        invariant forall n | n in nodes :: n.bTimeout <==> old(n.bTimeout) || n in taken[..k]
        decreases |taken| - k
      {
        assert lp == taken[k] && taken[..k + 1] == taken[..k] + [lp];
        assert k + 1 < |taken| ==> taken[k].pNext == taken[k + 1];
        lp.bTimeout := true;
        lp := lp.pNext;
        k := k + 1;
      }
      assert taken[..k] == taken;
      forall n | n in nodes ensures n in taken <==> n.item in ItemsOf(taken) {
        ItemsTell(taken, nodes, n);
      }
    }

    // Join of the timeout list into the active list.
    method JoinTaken()
      requires TurnValid()
      modifies pstActiveList`head, pstActiveList`tail, pstActiveList`nodes
      modifies pstTimeoutList`head, pstTimeoutList`tail, pstTimeoutList`nodes
      modifies nodes`pPrev, nodes`pNext, nodes`pLink
      ensures Valid() && Wheel() == old(Wheel()) && Active() == old(Active()) + ItemsOf(old(pstTimeoutList.nodes))
    {
      ItemsConcat(pstActiveList.nodes, pstTimeoutList.nodes);
      BothOutside(pstActiveList.nodes, pstTimeoutList.nodes, pTimeout.repr, nodes);
      Join(pstActiveList, pstTimeoutList);
    }

    // A new wait: its item is in no list yet.
    ghost method Register(ap: Node)
      requires Valid() && ap.pLink == null && forall n | n in nodes && n != ap :: n.item != ap.item
      modifies this`nodes
      ensures Valid() && nodes == old(nodes) + {ap}
    {
      nodes := nodes + {ap};
    }

    // The item goes with its wait.
    ghost method Forget(ap: Node)
      requires Valid() && ap in nodes && ap.pLink == null
      modifies this`nodes
      ensures Valid() && nodes == old(nodes) - {ap}
    {
      Unfiled(ap);
      nodes := nodes - {ap};
    }
  }
}

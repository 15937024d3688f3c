/** The condition variables of libco/co_routine.cpp: one intrusive list each, and the item `psi` that
    every waiting coroutine holds in its own frame until it is resumed. */
module CondQueues {
  import opened Sequences
  import opened TimeoutItem
  import opened IntrusiveList
  import opened ListFamily
  import W = WheelArray

  // A condition item names its wait and holds the timeout item of it.
  ghost predicate PsiValid(x: Item, psi: Node, conds: nat) {
    psi.item == x && psi.timeout != null && x.kind.Cond? && x.kind.cond < conds
  }

  ghost predicate PsisValid(psis: map<Item, Node>, nodes: set<Node>, conds: nat) {
    && (forall x | x in psis :: psis[x] in nodes && PsiValid(x, psis[x], conds))
    && forall n | n in nodes :: n.item in psis && psis[n.item] == n
  }

  // A queue holds waits for its own condition only.
  ghost predicate QueuesValid(contents: seq<seq<Node>>) {
    forall c, n | 0 <= c < |contents| && n in contents[c] :: n.item.kind.Cond? && n.item.kind.cond == c
  }

  // A linked item is in a queue.
  ghost predicate Queued(nodes: set<Node>, queued: set<Node>)
    reads nodes`pLink
  {
    forall n | n in nodes && n.pLink != null :: n in queued
  }

  ghost function QueueOf(contents: seq<seq<Node>>, c: nat): seq<Item> {
    if c < |contents| then ItemsOf(contents[c]) else []
  }

  ghost function LeftQueues(contents: seq<seq<Node>>, c: nat, psi: Node): (r: seq<seq<Node>>)
    requires c < |contents|
    ensures |r| == |contents|
  {
    if psi in contents[c] then contents[c := Without(contents[c], psi)] else contents
  }

  lemma LeftInQueue(contents: seq<seq<Node>>, nodes: set<Node>, psis: map<Item, Node>, conds: nat, x: Item)
    requires QueuesValid(contents) && PsisValid(psis, nodes, conds) && conds == |contents| && x in psis
    requires Members(contents) <= nodes
    requires var q := contents[x.kind.cond]; forall i, j | 0 <= i < j < |q| :: q[i] != q[j]
    ensures var psi, c := psis[x], x.kind.cond;
            var contents' := LeftQueues(contents, c, psi);
            && (psi in Members(contents) <==> psi in contents[c])
            && QueuesValid(contents') && Members(contents') == Members(contents) - {psi}
            && ItemsOf(contents'[c]) == Drop(ItemsOf(contents[c]), x)
  {
    var psi, c := psis[x], x.kind.cond;
    if psi in Members(contents) {
      var i :| 0 <= i < |contents| && psi in contents[i];
      assert i == c;
    }
    forall n | n in contents[c] ensures n in nodes {
      HasMember(contents, c, n);
    }
    if psi in contents[c] {
      WithoutIsGone(contents[c], psi);
      MembersWithout(contents, c, psi);
      W.ItemsWithout(contents[c], psi);
    } else {
      DropAbsent(ItemsOf(contents[c]), x);
    }
  }

  class Conds {
    var conds: seq<Link>
    var psis: map<Item, Node>
    ghost var contents: seq<seq<Node>>
    ghost var nodes: set<Node>

    ghost predicate Valid()
      reads this, conds, nodes`pPrev, nodes`pNext, nodes`pLink
    {
      && Family(conds, contents, nodes) && QueuesValid(contents)
      && Queued(nodes, Members(contents)) && PsisValid(psis, nodes, |conds|)
    }

    constructor ()
      ensures Valid() && conds == [] && contents == [] && psis == map[] && nodes == {}
    {
      conds, psis, contents, nodes := [], map[], [], {};
    }

    twostate lemma Stays()
      requires old(Valid()) && unchanged(this)
      requires forall l | l in conds :: unchanged(l)
      requires forall n | n in nodes :: unchanged(n`pPrev, n`pNext, n`pLink)
      ensures Valid()
    {
      forall i | 0 <= i < |conds| ensures Holds(conds[i], contents[i], nodes) {
        assert old(Holds(conds[i], contents[i], nodes)) && conds[i] in conds;
      }
    }

    // co_cond_alloc
    method Alloc() returns (c: nat)
      requires Valid()
      modifies this`conds, this`contents
      ensures Valid() && c == old(|conds|) && |conds| == c + 1
      ensures fresh(conds[c]) && conds == old(conds) + [conds[c]] && contents == old(contents) + [[]]
    {
      c := |conds|;
      var link := new Link();
      FamilyAddsList(conds, contents, nodes, link);
      MembersAddsEmpty(contents);
      conds, contents := conds + [link], contents + [[]];
    }

    // The queues hold new contents: the ghost state follows.
    ghost method Record(contents: seq<seq<Node>>, nodes: set<Node>)
      requires Family(conds, contents, nodes) && QueuesValid(contents)
      requires Queued(nodes, Members(contents)) && PsisValid(psis, nodes, |conds|)
      modifies this`contents, this`nodes
      ensures Valid() && this.contents == contents && this.nodes == nodes
    {
      this.contents, this.nodes := contents, nodes;
    }

    // co_cond_pop
    method Pop(c: nat) returns (p: Node?)
      requires Valid() && c < |conds|
      modifies this`contents, {conds[c]}`head, {conds[c]}`tail, {conds[c]}`nodes
      modifies nodes`pPrev, nodes`pNext, nodes`pLink
      ensures Valid() && (p == null <==> QueueOf(old(contents), c) == [])
      ensures p == null ==> contents == old(contents)
      ensures p != null ==>
                && p in nodes && p.item == QueueOf(old(contents), c)[0]
                && contents == old(contents)[c := old(contents)[c][1..]]
    {
      assert Holds(conds[c], contents[c], nodes) && conds[c] in conds;
      if conds[c].head == null {
        return null;
      }
      p := PopFrom(conds[c], conds, contents, c, nodes);
      PoppedQueues(contents, c);
      contents := contents[c := contents[c][1..]];
    }

    // AddTail of a new condition item, as co_cond_timedwait does before it yields.
    method Wait(psi: Node)
      requires Valid() && psi.pLink == null && PsiValid(psi.item, psi, |conds|) && psi.item !in psis
      modifies this`contents, this`nodes, this`psis
      modifies {conds[psi.item.kind.cond]}`head, {conds[psi.item.kind.cond]}`tail, {conds[psi.item.kind.cond]}`nodes
      modifies nodes`pNext, psi`pPrev, psi`pNext, psi`pLink
      ensures Valid() && nodes == old(nodes) + {psi} && psis == old(psis)[psi.item := psi]
      ensures var c := psi.item.kind.cond; contents == old(contents)[c := old(contents)[c] + [psi]]
    {
      var c := psi.item.kind.cond;
      assert conds[c] in conds;
      WaitedQueues(contents, psis, nodes, |conds|, psi);
      AppendTo(conds[c], psi, conds, contents, c, nodes);
      psis := psis[psi.item := psi];
      Record(contents[c := contents[c] + [psi]], nodes + {psi});
    }

    // RemoveFromLink(psi) by the resumed coroutine, which then frees the item.
    method Leave(x: Item)
      requires Valid() && x in psis
      modifies this`contents, this`nodes, this`psis
      modifies {conds[x.kind.cond]}`head, {conds[x.kind.cond]}`tail, {conds[x.kind.cond]}`nodes
      modifies nodes`pPrev, nodes`pNext, nodes`pLink
      ensures Valid() && nodes == old(nodes) - {old(psis)[x]} && psis == old(psis) - {x}
      ensures |contents| == |old(contents)| && forall c: nat ::
                QueueOf(contents, c) ==
                if c == x.kind.cond then Drop(QueueOf(old(contents), c), x) else QueueOf(old(contents), c)
    {
      var psi, c := psis[x], x.kind.cond;
      Leaves(x);
      if psi.pLink != null {
        assert conds[c] in conds;
        TakeOff(psi, conds, contents, c, nodes);
      }
      FamilyWithin(conds, LeftQueues(contents, c, psi), nodes, nodes - {psi});
      psis := psis - {x};
      Record(LeftQueues(contents, c, psi), nodes - {psi});
    }

    // What Leave changes, seen from before.
    lemma Leaves(x: Item)
      requires Valid() && x in psis
      ensures var psi, c := psis[x], x.kind.cond;
              var contents' := LeftQueues(contents, c, psi);
              && (psi.pLink != null <==> psi in contents[c])
              && QueuesValid(contents') && Members(contents') == Members(contents) - {psi} <= nodes
              && forall d: nat ::
                   QueueOf(contents', d) == if d == c then Drop(QueueOf(contents, c), x) else QueueOf(contents, d)
    {
      var c := x.kind.cond;
      FamilyMembers(conds, contents, nodes);
      assert Holds(conds[c], contents[c], nodes);
      LeftInQueue(contents, nodes, psis, |conds|, x);
    }
  }

  lemma MembersAddsEmpty(contents: seq<seq<Node>>)
    ensures Members(contents + [[]]) == Members(contents)
  {
    forall n | n in Members(contents) ensures n in Members(contents + [[]]) {
      var i :| 0 <= i < |contents| && n in contents[i];
      assert n in (contents + [[]])[i];
    }
  }

  lemma WaitedQueues(contents: seq<seq<Node>>, psis: map<Item, Node>, nodes: set<Node>, conds: nat, psi: Node)
    requires QueuesValid(contents) && PsisValid(psis, nodes, conds) && conds == |contents|
    requires PsiValid(psi.item, psi, conds) && psi.item !in psis
    ensures var c := psi.item.kind.cond;
            var contents' := contents[c := contents[c] + [psi]];
            && QueuesValid(contents') && PsisValid(psis[psi.item := psi], nodes + {psi}, conds)
            && Members(contents') == Members(contents) + {psi}
  {
    MembersAppend(contents, psi.item.kind.cond, psi);
  }

  lemma PoppedQueues(contents: seq<seq<Node>>, c: nat)
    requires c < |contents| && contents[c] != [] && QueuesValid(contents)
    ensures var contents' := contents[c := contents[c][1..]];
            && QueuesValid(contents')
            && forall n | n in Members(contents) && n != contents[c][0] :: n in Members(contents')
  {
    var contents' := contents[c := contents[c][1..]];
    assert contents[c] == [contents[c][0]] + contents[c][1..];
    forall n | n in Members(contents) && n != contents[c][0] ensures n in Members(contents') {
      var i :| 0 <= i < |contents| && n in contents[i];
      assert n in contents'[i];
    }
    forall i, n | 0 <= i < |contents'| && n in contents'[i] ensures n in contents[i] {
    }
  }
}

/** The intrusive doubly linked lists of libco/co_routine.cpp: every operation rewrites the
    prev/next/owner pointers in place and is specified by the sequence of nodes it leaves. */
module IntrusiveList {
  import opened TimeoutItem

  class Node {
    const item: Item
    var pPrev: Node?
    var pNext: Node?
    var pLink: Link?
    const timeout: Node?   // the timeout item inside a condition item, null in a timeout item
    var bTimeout: bool
    var detached: bool     // iAllEventDetach of the poll that the item belongs to

    constructor (item: Item, timeout: Node?)
      ensures this.item == item && this.timeout == timeout
      ensures pLink == null && pPrev == null && pNext == null && !bTimeout && !detached
    {
      this.item, this.timeout := item, timeout;
      pPrev, pNext, pLink := null, null, null;
      bTimeout, detached := false, false;
    }

    // The owner pointer names a list that really holds the node.
    ghost predicate Filed()
      reads this, pLink
    {
      pLink != null ==> this in pLink.nodes
    }
  }

  class Link {
    var head: Node?
    var tail: Node?
    ghost var nodes: seq<Node>

    constructor ()
      ensures Valid() && nodes == []
    {
      head, tail, nodes := null, null, [];
    }

    // Neighbours mirror each other, the ends are null, and every node names this list as owner.
    ghost predicate Valid()
      reads this, nodes`pPrev, nodes`pNext, nodes`pLink
    {
      OwnedBy(this, nodes) && Ends() && Chained(nodes)
    }

    ghost predicate Ends()
      reads this, nodes`pPrev, nodes`pNext, nodes`pLink
    {
      && (nodes == [] ==> head == null && tail == null)
      && (nodes != [] ==>
            && head == nodes[0] && nodes[0].pPrev == null
            && tail == nodes[|nodes| - 1] && nodes[|nodes| - 1].pNext == null)
    }
  }

  // Every node names `l` as its owner, and no node occurs twice.
  ghost predicate OwnedBy(l: Link, nodes: seq<Node>)
    reads nodes`pLink
  {
    && (forall i {:trigger nodes[i]} | 0 <= i < |nodes| :: nodes[i].pLink == l)
    && forall i, j {:trigger nodes[i], nodes[j]} | 0 <= i < j < |nodes| :: nodes[i] != nodes[j]
  }

  // Consecutive nodes point at each other.
  ghost predicate Chained(nodes: seq<Node>)
    reads nodes`pPrev, nodes`pNext
  {
    forall i, j {:trigger nodes[i], nodes[j]} | 0 <= i < |nodes| && 0 <= j < |nodes| && j == i + 1 ::
      nodes[i].pNext == nodes[j] && nodes[j].pPrev == nodes[i]
  }

  lemma ChainConcat(a: seq<Node>, b: seq<Node>)
    requires Chained(a) && Chained(b)
    requires a != [] && b != [] ==> a[|a| - 1].pNext == b[0] && b[0].pPrev == a[|a| - 1]
    ensures Chained(a + b)
  {
    var all := a + b;
    forall i, j {:trigger all[i], all[j]} | 0 <= i < |all| && 0 <= j < |all| && j == i + 1
      ensures all[i].pNext == all[j] && all[j].pPrev == all[i]
    {
      if j < |a| {
        assert all[i] == a[i] && all[j] == a[j];
      } else if i >= |a| {
        assert all[i] == b[i - |a|] && all[j] == b[j - |a|];
      }
    }
  }

  lemma OwnedConcat(l: Link, a: seq<Node>, b: seq<Node>)
    requires OwnedBy(l, a) && OwnedBy(l, b) && Apart(a, b)
    ensures OwnedBy(l, a + b)
  {
  }

  ghost predicate Apart(a: seq<Node>, b: seq<Node>) {
    forall i, j {:trigger a[i], b[j]} | 0 <= i < |a| && 0 <= j < |b| :: a[i] != b[j]
  }

  ghost function ItemsOf(nodes: seq<Node>): (items: seq<Item>)
    ensures |items| == |nodes|
  {
    seq(|nodes|, i requires 0 <= i < |nodes| => nodes[i].item)
  }

  lemma ItemsConcat(a: seq<Node>, b: seq<Node>)
    ensures ItemsOf(a + b) == ItemsOf(a) + ItemsOf(b)
  {
  }

  // No node is in two lists, nor twice in one: the owner pointer and the position decide.
  lemma ListsAreDisjoint(l: Link, m: Link, i: nat, j: nat)
    requires l.Valid() && m.Valid()
    requires i < |l.nodes| && j < |m.nodes|
    requires l.nodes[i] == m.nodes[j]
    ensures l == m && i == j
  {
  }

  ghost function IndexOf(nodes: seq<Node>, n: Node): (k: nat)
    requires n in nodes
    ensures k < |nodes| && nodes[k] == n
  {
    var k: nat :| k < |nodes| && nodes[k] == n;
    k
  }

  ghost function Without(nodes: seq<Node>, n: Node): seq<Node>
    requires n in nodes
  {
    var k := IndexOf(nodes, n);
    nodes[..k] + nodes[k + 1..]
  }

  function Opt(n: Node?): (ns: set<Node>) {
    if n == null then {} else {n}
  }

  function Owner(ap: Node): (ls: set<Link>)
    reads ap`pLink
  {
    if ap.pLink == null then {} else {ap.pLink}
  }

  method AddTail(apLink: Link, ap: Node)
    requires apLink.Valid()
    modifies apLink`head, apLink`tail, apLink`nodes, Opt(apLink.tail)`pNext, ap`pNext, ap`pPrev, ap`pLink
    ensures apLink.Valid()
    ensures old(ap.pLink) != null ==> apLink.nodes == old(apLink.nodes) && ap.pLink == old(ap.pLink)
    ensures old(ap.pLink) == null ==> apLink.nodes == old(apLink.nodes) + [ap] && ap.pLink == apLink
    ensures forall n | n in old(apLink.nodes) :: n.pLink == apLink
  {
    if ap.pLink != null {
      return;
    }
    if apLink.tail != null {
      apLink.tail.pNext := ap;
      ap.pNext := null;
      ap.pPrev := apLink.tail;
      apLink.tail := ap;
    } else {
      apLink.head, apLink.tail := ap, ap;
      ap.pNext, ap.pPrev := null, null;
    }
    ap.pLink := apLink;
    apLink.nodes := apLink.nodes + [ap];
  }

  method PopHead(apLink: Link)
    requires apLink.Valid()
    modifies apLink`head, apLink`tail, apLink`nodes, apLink.nodes`pPrev
    modifies Opt(apLink.head)`pNext, Opt(apLink.head)`pLink
    ensures apLink.Valid()
    ensures old(apLink.nodes) == [] ==> apLink.nodes == []
    ensures old(apLink.nodes) != [] ==>
              var lp := old(apLink.nodes)[0];
              && apLink.nodes == old(apLink.nodes)[1..]
              && lp.pLink == null && lp.pPrev == null && lp.pNext == null
  {
    if apLink.head == null {
      return;
    }
    var lp := apLink.head;
    if apLink.head == apLink.tail {
      assert |apLink.nodes| == 1;
      apLink.head, apLink.tail := null, null;
    } else {
      assert apLink.nodes[0].pNext == apLink.nodes[1];
      apLink.head := apLink.head.pNext;
    }
    lp.pPrev, lp.pNext := null, null;
    lp.pLink := null;
    if apLink.head != null {
      apLink.head.pPrev := null;
    }
    apLink.nodes := apLink.nodes[1..];
  }

  method RemoveFromLink(ap: Node)
    requires ap.Filed()
    requires ap.pLink != null ==> ap.pLink.Valid()
    modifies ap`pPrev, ap`pNext, ap`pLink, Owner(ap)`head, Owner(ap)`tail, Owner(ap)`nodes
    modifies Opt(ap.pPrev)`pNext, Opt(ap.pNext)`pPrev
    ensures ap.pLink == null
    ensures old(ap.pLink) == null ==> unchanged(ap)
    ensures old(ap.pLink) != null ==>
              var lst := old(ap.pLink);
              && lst.Valid()
              && lst.nodes == Without(old(ap.pLink.nodes), ap)
              && ap.pPrev == null && ap.pNext == null
  {
    var lst := ap.pLink;
    if lst == null {
      return;
    }
    assert lst.head != null && lst.tail != null;  // the assertion of the source
    ghost var was := lst.nodes;
    ghost var k := IndexOf(was, ap);
    assert k > 0 ==> ap.pPrev == was[k - 1];
    assert k + 1 < |was| ==> ap.pNext == was[k + 1];
    if ap == lst.head {
      lst.head := ap.pNext;
      if lst.head != null {
        lst.head.pPrev := null;
      }
    } else {
      if ap.pPrev != null {
        ap.pPrev.pNext := ap.pNext;
      }
    }
    if ap == lst.tail {
      lst.tail := ap.pPrev;
      if lst.tail != null {
        lst.tail.pNext := null;
      }
    } else {
      ap.pNext.pPrev := ap.pPrev;
    }
    ap.pPrev, ap.pNext := null, null;
    ap.pLink := null;
    lst.nodes := was[..k] + was[k + 1..];
    assert Chained(lst.nodes) by {
      ChainConcat(was[..k], was[k + 1..]);
    }
  }

  // The first loop of Join: every node of the source list gets the new owner.
  method Relabel(apLink: Link, apOther: Link)
    requires apLink != apOther && apOther.Valid()
    modifies apOther.nodes`pLink
    ensures forall i {:trigger apOther.nodes[i]} | 0 <= i < |apOther.nodes| ::
              apOther.nodes[i].pLink == apLink
  {
    ghost var src := apOther.nodes;
    var lp := apOther.head;
    ghost var k := 0;
    while lp != null
      invariant 0 <= k <= |src| && lp == (if k < |src| then src[k] else null)
      invariant forall i {:trigger src[i]} | 0 <= i < k :: src[i].pLink == apLink
      decreases |src| - k
    {
      assert lp == src[k];
      assert k + 1 < |src| ==> src[k].pNext == src[k + 1];
      lp.pLink := apLink;
      lp := lp.pNext;
      k := k + 1;
    }
  }

  // The rest of Join: the relabelled chain is hung behind the tail, and the source is emptied.
  method Splice(apLink: Link, apOther: Link)
    requires apLink != apOther && apLink.Valid()
    requires apOther.nodes != [] && OwnedBy(apLink, apOther.nodes) && apOther.Ends() && Chained(apOther.nodes)
    requires Apart(apLink.nodes, apOther.nodes)
    modifies apLink`head, apLink`tail, apLink`nodes, apOther`head, apOther`tail, apOther`nodes
    modifies Opt(apLink.tail)`pNext, Opt(apOther.head)`pPrev
    ensures apLink.Valid() && apLink.nodes == old(apLink.nodes) + old(apOther.nodes)
    ensures apOther.Valid() && apOther.nodes == []
  {
    ghost var dst, src := apLink.nodes, apOther.nodes;
    var lp := apOther.head;
    if apLink.tail != null {
      apLink.tail.pNext := lp;
      lp.pPrev := apLink.tail;
      apLink.tail := apOther.tail;
    } else {
      apLink.head := apOther.head;
      apLink.tail := apOther.tail;
    }
    apOther.head, apOther.tail := null, null;
    apOther.nodes := [];
    apLink.nodes := dst + src;
    assert OwnedBy(apLink, dst + src) by {
      OwnedConcat(apLink, dst, src);
    }
    assert Chained(dst + src) by {
      ChainConcat(dst, src);
    }
  }

  method Join(apLink: Link, apOther: Link)
    requires apLink != apOther && apLink.Valid() && apOther.Valid()
    modifies apLink`head, apLink`tail, apLink`nodes, apOther`head, apOther`tail, apOther`nodes
    modifies Opt(apLink.tail)`pNext, Opt(apOther.head)`pPrev, apOther.nodes`pLink
    ensures apLink.Valid() && apLink.nodes == old(apLink.nodes) + old(apOther.nodes)
    ensures apOther.Valid() && apOther.nodes == []
  {
    if apOther.head == null {
      return;
    }
    assert Apart(apLink.nodes, apOther.nodes);
    Relabel(apLink, apOther);
    Splice(apLink, apOther);
  }
}

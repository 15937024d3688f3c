/** Several intrusive lists over separate nodes: what an operation on one of them does to all. */
module ListFamily {
  import opened IntrusiveList

  // Different, well-formed lists that hold what `contents` says, with nodes of `repr` only.
  ghost predicate Family(lists: seq<Link>, contents: seq<seq<Node>>, repr: set<Node>)
    reads lists, repr`pPrev, repr`pNext, repr`pLink
  {
    && |lists| == |contents|
    && (forall i, j {:trigger lists[i], lists[j]} | 0 <= i < j < |lists| :: lists[i] != lists[j])
    && forall i {:trigger lists[i]} {:trigger contents[i]} | 0 <= i < |lists| :: Holds(lists[i], contents[i], repr)
  }

  ghost predicate Holds(l: Link, nodes: seq<Node>, repr: set<Node>)
    reads l, repr`pPrev, repr`pNext, repr`pLink
  {
    Within(nodes, repr) && l.nodes == nodes && l.Valid()
  }

  ghost predicate Within(nodes: seq<Node>, repr: set<Node>) {
    forall n | n in nodes :: n in repr
  }

  ghost function Members(contents: seq<seq<Node>>): set<Node> {
    set i, n | 0 <= i < |contents| && n in contents[i] :: n
  }

  lemma FamilyWithin(lists: seq<Link>, contents: seq<seq<Node>>, repr: set<Node>, repr': set<Node>)
    requires Family(lists, contents, repr) && Members(contents) <= repr'
    ensures Family(lists, contents, repr')
  {
    forall i | 0 <= i < |lists| ensures Holds(lists[i], contents[i], repr') {
      assert Holds(lists[i], contents[i], repr);
      forall n | n in contents[i] ensures n in repr' {
        assert n in Members(contents);
      }
    }
  }

  lemma FamilyAddsList(lists: seq<Link>, contents: seq<seq<Node>>, repr: set<Node>, l: Link)
    requires Family(lists, contents, repr) && l !in lists && Holds(l, l.nodes, repr)
    ensures Family(lists + [l], contents + [l.nodes], repr)
  {
    forall i | 0 <= i < |lists| + 1 ensures Holds((lists + [l])[i], (contents + [l.nodes])[i], repr) {
      if i < |lists| {
        assert Holds(lists[i], contents[i], repr);
      }
    }
  }

  lemma FamilyDropsList(lists: seq<Link>, contents: seq<seq<Node>>, repr: set<Node>, l: Link, nodes: seq<Node>)
    requires Family(lists + [l], contents + [nodes], repr)
    ensures Family(lists, contents, repr) && Holds(l, nodes, repr)
  {
    var all := lists + [l];
    forall i, j | 0 <= i < j < |lists| ensures lists[i] != lists[j] {
      assert all[i] != all[j];
    }
    forall i | 0 <= i < |lists| ensures Holds(lists[i], contents[i], repr) {
      assert Holds(all[i], (contents + [nodes])[i], repr);
    }
    assert Holds((lists + [l])[|lists|], (contents + [nodes])[|lists|], repr);
  }

  // The list that is left out of the frame of an operation stays as it is.
  lemma OnlyOwner(lists: seq<Link>, contents: seq<seq<Node>>, repr: set<Node>, i: nat, n: Node)
    requires Family(lists, contents, repr) && i < |lists| && n in contents[i]
    ensures n.pLink == lists[i] && forall j | 0 <= j < |lists| && j != i :: n !in contents[j]
  {
    assert Holds(lists[i], contents[i], repr);
    forall j | 0 <= j < |lists| && j != i ensures n !in contents[j] {
      assert Holds(lists[j], contents[j], repr);
    }
  }

  method AppendTo(list: Link, ap: Node, ghost lists: seq<Link>, ghost contents: seq<seq<Node>>, ghost idx: nat,
                  ghost repr: set<Node>)
    requires Family(lists, contents, repr) && idx < |lists| && lists[idx] == list && ap.pLink == null
    modifies list`head, list`tail, list`nodes, repr`pNext, ap`pNext, ap`pPrev, ap`pLink
    ensures Family(lists, contents[idx := contents[idx] + [ap]], repr + {ap})
  {
    assert Holds(list, contents[idx], repr);
    AddTail(list, ap);
    forall j | 0 <= j < |lists| && j != idx ensures Holds(lists[j], contents[j], repr + {ap}) {
      assert old(Holds(lists[j], contents[j], repr));
      assert forall n | n in contents[j] :: unchanged(n);
    }
  }

  method TakeOff(ap: Node, ghost lists: seq<Link>, ghost contents: seq<seq<Node>>, ghost idx: nat,
                 ghost repr: set<Node>)
    requires Family(lists, contents, repr) && idx < |lists| && ap in contents[idx]
    modifies {lists[idx]}`head, {lists[idx]}`tail, {lists[idx]}`nodes, repr`pNext, repr`pPrev, ap`pLink
    ensures Family(lists, contents[idx := Without(contents[idx], ap)], repr) && ap.pLink == null
  {
    ghost var nodes := contents[idx];
    assert Holds(lists[idx], nodes, repr);
    ghost var k := IndexOf(nodes, ap);
    assert 0 < k ==> ap.pPrev == nodes[k - 1];
    assert k + 1 < |nodes| ==> ap.pNext == nodes[k + 1];
    RemoveFromLink(ap);
    forall j | 0 <= j < |lists| && j != idx ensures Holds(lists[j], contents[j], repr) {
      assert old(Holds(lists[j], contents[j], repr));
      assert forall n | n in contents[j] :: unchanged(n);
    }
  }

  method PopFrom(list: Link, ghost lists: seq<Link>, ghost contents: seq<seq<Node>>, ghost idx: nat,
                 ghost repr: set<Node>)
    returns (lp: Node)
    requires Family(lists, contents, repr) && idx < |lists| && lists[idx] == list && contents[idx] != []
    modifies list`head, list`tail, list`nodes, repr`pNext, repr`pPrev, repr`pLink
    ensures Family(lists, contents[idx := contents[idx][1..]], repr) && lp == contents[idx][0] && lp.pLink == null
    ensures forall n | n in repr && n != lp :: n.pLink == old(n.pLink)
  {
    assert Holds(list, contents[idx], repr);
    lp := list.head;
    PopHead(list);
    forall j | 0 <= j < |lists| && j != idx ensures Holds(lists[j], contents[j], repr) {
      assert old(Holds(lists[j], contents[j], repr));
      assert forall n | n in contents[j] :: unchanged(n);
    }
  }

  ghost function Joined(contents: seq<seq<Node>>, i: nat, j: nat): seq<seq<Node>>
    requires i < |contents| && j < |contents|
  {
    contents[i := contents[i] + contents[j]][j := []]
  }

  // Join of list j into list i of the family.
  method JoinInto(apLink: Link, apOther: Link, ghost lists: seq<Link>, ghost contents: seq<seq<Node>>,
                  ghost i: nat, ghost j: nat, ghost repr: set<Node>)
    requires Family(lists, contents, repr) && i < |lists| && j < |lists| && i != j
    requires lists[i] == apLink && lists[j] == apOther
    modifies apLink`head, apLink`tail, apLink`nodes, apOther`head, apOther`tail, apOther`nodes
    modifies repr`pNext, repr`pPrev, contents[j]`pLink
    ensures Family(lists, Joined(contents, i, j), repr)
  {
    assert Holds(apLink, contents[i], repr) && Holds(apOther, contents[j], repr);
    Join(apLink, apOther);
    forall k | 0 <= k < |lists| && k != i && k != j ensures Holds(lists[k], contents[k], repr) {
      assert old(Holds(lists[k], contents[k], repr));
      assert forall n | n in contents[k] :: unchanged(n);
    }
  }

  lemma WithoutIsGone(nodes: seq<Node>, ap: Node)
    requires ap in nodes && forall i, j | 0 <= i < j < |nodes| :: nodes[i] != nodes[j]
    ensures ap !in Without(nodes, ap)
  {
  }

  lemma HasMember(contents: seq<seq<Node>>, i: nat, n: Node)
    requires i < |contents| && n in contents[i]
    ensures n in Members(contents)
  {
  }

  lemma FamilyMembers(lists: seq<Link>, contents: seq<seq<Node>>, repr: set<Node>)
    requires Family(lists, contents, repr)
    ensures Members(contents) <= repr
  {
    forall n | n in Members(contents) ensures n in repr {
      var i :| 0 <= i < |contents| && n in contents[i];
      assert Holds(lists[i], contents[i], repr);
    }
  }

  lemma MembersAppend(contents: seq<seq<Node>>, idx: nat, ap: Node)
    requires idx < |contents|
    ensures Members(contents[idx := contents[idx] + [ap]]) == Members(contents) + {ap}
  {
    var c' := contents[idx := contents[idx] + [ap]];
    forall n | n in Members(contents) + {ap} ensures n in Members(c') {
      assert ap in c'[idx];
      if n != ap {
        var i :| 0 <= i < |contents| && n in contents[i];
        assert n in c'[i];
      }
    }
  }

  lemma MembersWithout(contents: seq<seq<Node>>, idx: nat, ap: Node)
    requires idx < |contents| && ap in contents[idx]
    requires ap !in Without(contents[idx], ap) && forall j | 0 <= j < |contents| && j != idx :: ap !in contents[j]
    ensures Members(contents[idx := Without(contents[idx], ap)]) == Members(contents) - {ap}
  {
    var c' := contents[idx := Without(contents[idx], ap)];
    var k := IndexOf(contents[idx], ap);
    assert contents[idx] == contents[idx][..k] + [ap] + contents[idx][k + 1..];
    forall n | n in Members(contents) - {ap} ensures n in Members(c') {
      var i :| 0 <= i < |contents| && n in contents[i];
      assert n in c'[i];
    }
    forall n | n in Members(c') ensures n in Members(contents) - {ap} {
      var i :| 0 <= i < |c'| && n in c'[i];
      assert n in contents[i];
    }
  }

  lemma MembersJoined(contents: seq<seq<Node>>, i: nat, j: nat)
    requires i < |contents| && j < |contents| && i != j
    ensures Members(Joined(contents, i, j)) == Members(contents)
  {
    var c' := Joined(contents, i, j);
    assert c'[i] == contents[i] + contents[j];
    forall n | n in Members(contents) ensures n in Members(c') {
      var k :| 0 <= k < |contents| && n in contents[k];
      assert n in c'[if k == j then i else k];
    }
    forall n | n in Members(c') ensures n in Members(contents) {
      var k :| 0 <= k < |c'| && n in c'[k];
      assert k == i || n in contents[k];
    }
  }
}
